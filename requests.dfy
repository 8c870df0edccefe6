/** A document of the `depositRequests` or `withdrawRequests` collection, as the notifier reads it. */
module Requests {
  import opened JsValues
  import opened Wrappers

  /** A Firestore timestamp; only its `seconds` are used. */
  datatype Timestamp = Timestamp(seconds: int, nanoseconds: int)

  /**
   * The fields the notifier reads from `doc.data()`; a missing field is
   * `Undefined`; `paymentMethod` is the `method` field. `createdAt` is `None` when it is absent or not a timestamp.
   * `id` is the optional user-supplied display id, `Number` and `number`
   * are the two spellings of the account number the documents use.
   */
  datatype DocData = DocData(
    status: Value,
    paymentMethod: Value,
    amount: Value,
    trxId: Value,
    id: Value,
    Number: Value,
    number: Value,
    createdAt: Option<Timestamp>)
}
