/** Option and Result values, and the errors the pipeline can end with. */
module Wrappers {

  datatype Option<+T> = None | Some(value: T)

  datatype Result<+T, +E> = Ok(value: T) | Err(error: E)

  /** Every way an event's aggregation, and therefore the batch, can stop. */
  datatype Error =
      /** All attempts answered with a non-200 status: the last status, the URL and the last body. */
    | ServiceError(status: int, url: string, body: string)
      /** A header line (index in the payload's lines) did not split on '=' into two parts. */
    | HeaderError(line: nat)
      /** The tab-separated body of the payload could not be read. */
    | BodyError
}
