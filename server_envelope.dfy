/**
 * The JSON envelope every server route answers with: `{success, message?, data?}`
 * together with its HTTP status.
 */
module ServerEnvelope {
  import opened JsStrings

  datatype Response<T> = Response(status: nat, success: bool, message: Option<string>, data: Option<T>)

  /** `res.json({ success: true, data })` */
  function Ok<T>(data: T): Response<T> {
    Response(200, true, None, Some(data))
  }

  /** `res.status(status).json({ success: false, message })` */
  function Fail<T>(status: nat, message: string): Response<T> {
    Response(status, false, Some(message), None)
  }
}
