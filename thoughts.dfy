/**
 * The stored record ("thought") and the failures the store adapter can raise.
 * Every attribute except the key may be absent from a stored record: a record
 * created by an update of a missing key holds only the key and the updated
 * attributes.
 */
module Thoughts {
  import opened Wrappers

  /** The composite primary key `(id, timestamp)`. */
  datatype Key = Key(id: string, timestamp: string)

  datatype Thought = Thought(
    id: string,
    timestamp: string,
    content: Option<string>,
    category: Option<string>,
    status: Option<string>,
    isAcknowledged: Option<bool>,
    actionTaken: Option<bool>,
    isDeleted: Option<bool>)

  function KeyOf(t: Thought): Key {
    Key(t.id, t.timestamp)
  }

  /** The store refuses a key attribute holding the empty string. */
  predicate ValidKey(k: Key) {
    k.id != "" && k.timestamp != ""
  }

  /** The scan filter `attribute_not_exists(isDeleted) OR isDeleted = :false`. */
  predicate Visible(t: Thought) {
    t.isDeleted == None || t.isDeleted == Some(false)
  }

  /** Why a request ends in a 500. */
  datatype Error =
    | InvalidJson            // `JSON.parse` threw on the request body
    | UndefinedValue         // the document client refuses to write an `undefined` attribute
    | EmptyUpdateExpression  // `SET ` with no clause is not a valid update expression
    | EmptyKeyAttribute      // the store refuses a key attribute that is the empty string
}
