/** Failure-carrying values shared by every parser of the import pipeline.

  The Python code signals a record it cannot build by raising (an `assert`,
  an explicit `raise`, a `KeyError` from the zip, an `IndexError`, an
  `AttributeError`).  Here each of those becomes an `Err` value whose
  `Error` names the kind of exception, so that the stages can tell the
  recoverable ones (skip the record) from the fatal ones (abort the stage),
  exactly as the Python `try`/`except` blocks do.
*/
module Wrappers {

  datatype Option<+T> = None | Some(value: T) {

    /** The wrapped value, or `default` when there is none. */
    function GetOr(default: T): T {
      match this
      case Some(v) => v
      case None => default
    }
  }

  /** The exception a Python constructor or stage would raise. */
  datatype Error =
    /** an `assert` on a required field failed */
    | AssertionFailed(field: string)
    /** an explicit `raise Exception(...)` for a missing or malformed part */
    | Malformed(reason: string)
    /** `KeyError`: a path that the backup zip does not hold */
    | NotFound(path: string)
    /** `IndexError`: `[0]` on an empty node list */
    | IndexOutOfRange(what: string)
    /** `AttributeError`: an attribute the object never received */
    | AttributeMissing(attribute: string)
    /** `ValueError`: the two identity keys of a person resolve to different persons */
    | IdentityConflict(wikidataIri: string, momId: string)

  datatype Result<+T> = Ok(value: T) | Err(error: Error) {

    predicate IsFailure() {
      Err?
    }

    function PropagateFailure<U>(): Result<U>
      requires Err?
    {
      Err(error)
    }

    function Extract(): T
      requires Ok?
    {
      value
    }

    /** The value, or None when the computation failed. */
    function ToOption(): (o: Option<T>)
      ensures o.Some? <==> Ok?
      ensures o.Some? ==> o.value == value
    {
      match this
      case Ok(v) => Some(v)
      case Err(_) => None
    }
  }

  /** An XML element that is present, with its text when it has any
      (lxml reports an element without text as `text is None`). */
  datatype Element = Element(text: Option<string>)

  /** A URL as the pipeline builds it.  `join_url_parts` is not part of this
      model, so a joined URL is kept as the ordered list of its parts rather
      than as rendered text; URLs the source writes out literally (f-strings,
      configuration values) are `Literal`. */
  datatype Url = Literal(text: string) | Joined(parts: seq<string>)

  /** The base every public charter URL is joined onto. */
  const MomBase: string := "https://www.monasterium.net/mom"
}
