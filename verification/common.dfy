/** Small shared datatypes: optional values, the settled state of an awaited
    promise, and the success-or-message outcome of an operation. */
module Common {

  /** An optional value; `None` stands for a JavaScript `null` or `undefined`
      (or, in a partial record, for a key that is absent). */
  datatype Option<+T> = None | Some(value: T) {

    /** The value, or `default` when there is none (JavaScript `v ?? default`). */
    function GetOr(default: T): (r: T)
      ensures Some? ==> r == value
      ensures None? ==> r == default
    {
      match this
      case Some(v) => v
      case None => default
    }
  }

  /** How an awaited call into the identity provider settles: its promise either
      resolves with a reply or rejects with an exception's message. */
  datatype Call<+T> = Resolved(value: T) | Rejected(reason: string)

  /** How an operation ends for its caller: it returns normally, or it rejects
      with a message (the error it throws or rethrows). */
  datatype Outcome = Done | Failed(message: string)

  /** A string-valued field read with the `value || ""` idiom: a missing value and
      an empty string both read as the empty string. */
  function OrEmpty(v: Option<string>): (r: string)
    ensures v.Some? ==> r == v.value
    ensures r == "" <==> v.None? || v == Some("")
  {
    v.GetOr("")
  }
}
