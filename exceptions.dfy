/** The Python exceptions the pipeline can raise, named by the condition that raises them. */
module Exceptions {

  datatype Exception =
      /** A lookup in a dict, the configuration or the environment found no such key. */
    | KeyError(key: string)
      /** `rows[0]` on a table without rows (a pandas Series raises KeyError: 0). */
    | NoFirstRow
      /** `base64.b64decode` rejected the storage account key (binascii.Error). */
    | Base64Error
      /** `utcfromtimestamp` or `/ 1000` was given a value that is not a number. */
    | TimestampTypeError
      /** `utcfromtimestamp` was given an instant whose year lies outside 1..9999. */
    | TimestampOutOfRange
      /** `len(None)`: the gate answered None and the caller measured it. */
    | NoneHasNoLen
      /** `update_from_yaml` was called on the `(None, None)` pair. */
    | TupleHasNoUpdate
}
