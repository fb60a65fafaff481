/**
 * What can go wrong: the transport failures urllib reports, and the WadoWrapperException
 * hierarchy the client re-raises them as (WadoServerResponseException,
 * WadoResourceNotFoundException, WadoConnectionException and its subclass
 * WadoConnectionAuthException), next to the raw Python exceptions that can escape it.
 */
module Errors {
  import opened Wrappers
  import opened Text

  /** A `urllib.error.URLError`: either an `HTTPError` carrying a status, or a plain failure with its reason. */
  datatype UrlError =
    | HttpError(code: nat, msg: string)
    | UrlFailure(reason: string)

  /** `str(e)` for a URLError, as urllib formats it. */
  function ErrorText(e: UrlError): string
  {
    match e
    case HttpError(code, msg) => "HTTP Error " + NatToString(code) + ": " + msg
    case UrlFailure(reason) => "<urlopen error " + reason + ">"
  }

  /** An exception leaving the client. */
  datatype Failure =
      /** WadoServerResponseException, keeping the transport error it wraps. */
    | ServerResponseError(message: string, original: Option<UrlError>)
      /** WadoResourceNotFoundException. */
    | ResourceNotFound(message: string)
      /** WadoConnectionException. */
    | ConnectionError(message: string)
      /** WadoConnectionAuthException, a subclass of WadoConnectionException. */
    | ConnectionAuthError(message: string)
      /** A URLError (or HTTPError) escaping unwrapped. */
    | RawUrlError(error: UrlError)
      /** `socket.timeout` escaping unwrapped. */
    | RawTimeout
      /**
       * Any other exception of the transport escaping unwrapped (a reset connection, a remote
       * end that closed without answering, an invalid URL), by the name of its class.
       */
    | RawException(name: string)
      /** UnboundLocalError: the retry loop returning a response it never received. */
    | UnboundResponse
      /** KeyError from a header lookup. */
    | KeyError(key: string)
  {
    /** Belongs to the WadoWrapperException hierarchy. */
    predicate IsWrapper() { ServerResponseError? || ResourceNotFound? || ConnectionError? || ConnectionAuthError? }
  }
}
