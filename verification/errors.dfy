/** The exceptions that the application layer throws or lets through.
    Each constructor stands for one exception class; the payload is the part
    of the exception that callers observe. */
module Errors {

  datatype Error =
    /** ArgumentNullException for a null argument. */
    | ArgumentNull(paramName: string)
    /** ArgumentException, thrown by ThrowIfNullOrEmpty for an empty string. */
    | Argument(paramName: string)
    /** BusinessRuleException: a domain rule is violated. */
    | BusinessRule(message: string)
    /** NotFoundException: a flight key or booking ID does not exist. */
    | NotFound(message: string)
    /** ExternalApiException; `statusCode` is the HTTP status it carries. */
    | ExternalApi(statusCode: int, message: string)
    /** FormatException from DateTime.Parse on text that is not a date. */
    | Format(text: string)
    /** NullReferenceException from dereferencing a null navigation property. */
    | NullReference(member: string)
    /** Any other exception a collaborator throws. */
    | Unclassified(message: string)

  /** `HttpStatusCode` has no member 0; it is what an ExternalApiException
      built without a status code reports. */
  const NoStatusCode: int := 0

  /** An ExternalApiException built by one of the constructors that take no
      status code: its StatusCode property keeps the default value. */
  function ExternalApiWithoutStatus(message: string): (e: Error)
    ensures e.ExternalApi? && e.statusCode == NoStatusCode && e.message == message
  {
    ExternalApi(NoStatusCode, message)
  }
}
