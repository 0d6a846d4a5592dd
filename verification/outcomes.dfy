/** The `Option` and `Result` wrappers and the error kinds the Venafi Cloud connector reports.

    Error kinds replace the connector's formatted error strings (and typed endpoint errors): each
    constructor is one kind of error, carrying the identifiers the message would have carried.
    Returns that report the same condition share a kind: every "must be authenticated" check is
    `NotAuthenticated`, and the fingerprint errors of retrieval and renewal are the same kinds.
 */
module Outcomes {

  datatype Option<+T> = None | Some(value: T)

  datatype Error =
    // Configuration / usage errors
    | MissingCredentials
    | UnsupportedCsrOrigin
    | PrivateKeyUnsupported
    | MissingRenewalTarget
    | NotAuthenticated
    | NotSupported
    // Not-found and ambiguity errors
    | FingerprintNotFound(thumbprint: string)
    | AmbiguousFingerprint(candidates: seq<string>)
    // Transient / state errors
    | CertificatePending(certificateId: string, status: string)
    | RetrieveTimeout(certificateId: string)
    // Terminal failures
    | IssuanceFailed(requestId: string)
    | RetrievalFailed(statusCode: int, statusText: string)
    | UnexpectedStatus(statusCode: int)
    | MalformedResponse
    | EmptyManagedCertificateId(status: string)
    | EmptyZoneId(status: string)
    /** `thumbprint` is the renewal's thumbprint, empty when the renewal named its target by DN. */
    | StaleRenewalTarget(requestId: string, thumbprint: string, managedCertificateId: string, latestRequestId: string)
    /** The acknowledgement listed no request id: the connector indexes element 0 of an
        empty list, which is a run-time panic in the connector. */
    | NoRequestIds
    /** An error produced by the transport or by a decoder that is not part of this model,
        passed through unchanged. */
    | Remote(detail: string)
    /** Not an error of the connector: the finite sequence of poll observations given to the
        model ran out while the loop was still waiting. */
    | PollingUnfinished

  datatype Result<+T> = Ok(value: T) | Err(error: Error)
}
