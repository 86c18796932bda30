/** The exceptions the two services throw, with the messages they carry. */
module Errors {

  datatype Error =
    | NotFound(message: string)   // NotFoundException
    | Forbidden(message: string)  // ForbiddenException
    | Internal(message: string)   // any other error raised by the persistence layer

  /** The decimal digits of `n`, as an id appears inside an exception message. */
  function Decimal(n: nat): (s: string)
    ensures |s| > 0
    ensures forall i :: 0 <= i < |s| ==> '0' <= s[i] <= '9'
    decreases n
  {
    var digit := "0123456789"[n % 10];
    if n < 10 then [digit] else Decimal(n / 10) + [digit]
  }

  function JobNotFound(id: nat): Error {
    NotFound("Ingestion job with ID " + Decimal(id) + " not found")
  }

  function DocumentNotFound(id: nat): Error {
    NotFound("Document with ID " + Decimal(id) + " not found")
  }

  const AccessDenied: Error := Forbidden("You can only access your own documents")
  const UpdateDenied: Error := Forbidden("You do not have permission to update documents")
  const DeleteDenied: Error := Forbidden("You do not have permission to delete documents")
}
