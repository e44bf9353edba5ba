/** Types every component shares: optional columns and the outcome of a service call. */
module Common {

  /** A nullable column or an optional field of a request. */
  datatype Option<+T> = None | Some(value: T)

  /** The HTTP exceptions the services throw. */
  datatype Error = NotFound | BadRequest | Conflict

  /** What a transaction body leaves: a committed value, or an exception and a rollback. */
  datatype Outcome<+T> = Ok(value: T) | Err(error: Error)

  /** Amounts a DTO accepts for a payment or a manual payable: at least one cent. */
  type Positive = x: int | 0 < x witness 1

  /** One row of a table may be different. */
  ghost predicate OnlyRow<T(!new)>(before: seq<T>, after: seq<T>, id: nat) {
    |after| == |before| && id < |before| && forall i :: 0 <= i < |before| && i != id ==> after[i] == before[i]
  }
}
