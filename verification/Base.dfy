/** Shared vocabulary: optional values, outcomes, identifiers and time. */
module Base {

  datatype Option<+T> = None | Some(value: T)

  /** The declined outcomes an endpoint can answer with. */
  datatype Error =
    | UserExists          // duplicate email at signup
    | InvalidEpin         // E-pin missing, used, or of the wrong type
    | NoSponsor           // referral username unknown, or no free slot below it
    | ValidationFailed    // a schema validator or required field rejected the document
    | DuplicateKey        // a unique index rejected the document
    | NotFound            // the addressed record does not exist (or does not match the filter)
    | BadRequest          // a request parameter is malformed
    | ServerError         // an exception reached the handler's catch block

  datatype Result<+T> = Ok(value: T) | Err(error: Error)

  /** A document's ObjectId. Users and ledger records are identified by their
      position in their collection: the handlers only store, compare and look
      up ids, never build or order them, and positions are distinct just as
      ObjectIds are. */
  type UserId = nat
  type TxnId = nat

  /** A timestamp (milliseconds); the clock is an input of every operation that reads it. */
  type Time = nat

  /** JavaScript truthiness of an optional string field: absent and "" are falsy. */
  predicate Truthy(s: Option<string>)
  {
    s.Some? && s.value != ""
  }
}
