/**
  * The serializer's single error kind: either a wrapped store error or a
  * descriptive message (src/error.rs).
  */
module Errors {
  import opened Wrappers

  datatype SerializationError<E> = SerializationError(message: Option<string>, err: Option<E>)
  {
    /** Exactly one of the two payloads is present. */
    predicate WellFormed() { message.Some? != err.Some? }

    /** The descriptive message, if any: the stored field, unchanged. */
    function Message(): (m: Option<string>)
      ensures m == message
      ensures WellFormed() ==> (m.Some? <==> err.None?)
    {
      message
    }

    /** The wrapped store error, if any: the stored field, unchanged. */
    function Error(): (e: Option<E>)
      ensures e == err
      ensures WellFormed() ==> (e.Some? <==> message.None?)
    {
      err
    }
  }

  /** Wraps a store error. */
  function New<E>(e: E): (r: SerializationError<E>)
    ensures r.WellFormed()
    ensures r.Error() == Some(e) && r.Message() == None
  {
    SerializationError(None, Some(e))
  }

  /** Builds an error from a message string. */
  function FromStr<E>(s: string): (r: SerializationError<E>)
    ensures r.WellFormed()
    ensures r.Message() == Some(s) && r.Error() == None
  {
    SerializationError(Some(s), None)
  }

  /**
    * The error serde builds through `custom`; `display` is the text the
    * message's Display implementation produces.
    */
  function Custom<E>(display: string): (r: SerializationError<E>)
    ensures r.WellFormed()
    ensures r.Message() == Some(display) && r.Error() == None
  {
    SerializationError(Some(display), None)
  }

  /** Turns a store error into a failed result; it never succeeds. */
  function WrapErr<V, E>(e: E): (r: Result<V, SerializationError<E>>)
    ensures r.Err? && r.error == New(e)
  {
    Err(New(e))
  }

  /** `.or_else(wrap_err)`: keeps a success, wraps a store error. */
  function OrElseWrap<V, E>(r: Result<V, E>): (w: Result<V, SerializationError<E>>)
    ensures w.Ok? <==> r.Ok?
    ensures w.Ok? ==> w.value == r.value
    ensures w.Err? ==> w == WrapErr(r.error)
  {
    match r
    case Ok(v) => Ok(v)
    case Err(e) => WrapErr(e)
  }

  /** An error that reports a store failure: wrapped error present, no message. */
  predicate IsStoreFailure<E>(e: SerializationError<E>)
  {
    e.err.Some? && e.message.None?
  }

  /** The three constructors are told apart by which payload they carry. */
  lemma ConstructorsDistinct<E>(e: E, s: string, d: string)
    ensures IsStoreFailure(New(e)) && !IsStoreFailure(FromStr<E>(s)) && !IsStoreFailure(Custom<E>(d))
    ensures New(e) != FromStr<E>(s) && New(e) != Custom<E>(d)
    ensures FromStr<E>(s) == Custom<E>(s)
  {
  }
}
