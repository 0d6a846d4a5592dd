/** The records the Venafi Cloud connector exchanges with the service and its caller, and the
    abstract replies that stand in for the transport.

    Replies whose decoding is done by code outside this model are given as already-decoded
    `Result`s; replies whose status-code handling the connector does itself carry the code and
    the decoded body (`None` when the body does not decode).
 */
module Entities {
  import opened Outcomes
  import Paths

  // ---------------------------------------------------------------------------
  // Session

  datatype Company = Company(id: string)

  datatype UserDetails = UserDetails(username: string, company: Option<Company>)

  /** Connector state: the API key, the authenticated user (set by Authenticate or Register)
      and the default zone. The base URL, verbosity flag and trust pool are not modelled. */
  datatype Connector = Connector(apiKey: string, user: Option<UserDetails>, zone: string)

  /** The connector's guard `c.user != nil && c.user.Company != nil`. */
  predicate HasCompany(c: Connector) {
    c.user.Some? && c.user.value.company.Some?
  }

  // ---------------------------------------------------------------------------
  // Caller-supplied requests

  datatype CsrOrigin = LocalGeneratedCsr | ServiceGeneratedCsr | UserProvidedCsr

  datatype ChainOption = ChainRootLast | ChainRootFirst | ChainIgnore

  /** A certificate request as the caller hands it to the connector. `timeout` is a duration
      (it may be negative); `pickupId` is written back by the connector. */
  datatype Request = Request(
    csrOrigin: CsrOrigin,
    csr: string,
    pickupId: string,
    thumbprint: string,
    timeout: int,
    chainOption: ChainOption,
    fetchPrivateKey: bool)

  /** A renewal request: the target is named by thumbprint or by certificate DN (which, for this
      service, is the prior certificate-request id); an optional request may carry a new CSR. */
  datatype RenewalRequest = RenewalRequest(
    thumbprint: string,
    certificateDn: string,
    certificateRequest: Option<Request>)

  // ---------------------------------------------------------------------------
  // Service records

  datatype StatusRecord = StatusRecord(id: string, status: string, zoneId: string, managedCertificateId: string)

  datatype SearchHit = SearchHit(certificateId: string, certificateRequestId: string)

  datatype ManagedCertificate = ManagedCertificate(
    id: string,
    companyId: string,
    latestCertificateRequestId: string,
    certificateName: string)

  datatype Zone = Zone(id: string, tag: string, identityPolicyId: string, usePolicyId: string)

  datatype AllowedKeyType = AllowedKeyType(keyType: string, keyLengths: seq<int>)

  /** The policy fields the connector merges; a fresh policy has every field empty. */
  datatype Policy = Policy(
    subjectCnRegexes: seq<string>,
    subjectORegexes: seq<string>,
    subjectOuRegexes: seq<string>,
    subjectStRegexes: seq<string>,
    subjectLRegexes: seq<string>,
    subjectCRegexes: seq<string>,
    sanRegexes: seq<string>,
    keyTypes: seq<AllowedKeyType>,
    keyReuse: bool)

  const EmptyPolicy: Policy := Policy([], [], [], [], [], [], [], [], false)

  datatype PolicyKind = IdentityPolicy | UsePolicy | OtherPolicy(name: string)

  /** One decoded certificate policy, tagged with its type. */
  datatype PolicyFragment = PolicyFragment(kind: PolicyKind, fields: Policy)

  /** A zone and the policy merged from its two policy fragments. */
  datatype ZoneConfiguration = ZoneConfiguration(zone: Zone, policy: Policy)

  datatype Acknowledgement = Acknowledgement(requestIds: seq<string>)

  datatype PemCollection = PemCollection(certificate: string, chain: seq<string>)

  /** Body of a certificate-request submission. A first request carries a zone and a CSR; a
      renewal also names the managed certificate and either a new CSR or `reuseCsr`. */
  datatype SubmissionBody = SubmissionBody(
    zoneId: string,
    csr: string,
    existingManagedCertificateId: string,
    reuseCsr: bool)

  // ---------------------------------------------------------------------------
  // Calls issued and replies received

  datatype Method = GET | POST

  datatype Body =
    | NoBody
    | AccountBody(username: string, accountType: string)
    | SearchBody(fingerprint: string)
    | Submission(request: SubmissionBody)

  /** One request the connector would send: its method, the resource template it was built from,
      the path and the body. */
  datatype Call = Call(verb: Method, resource: Paths.Resource, path: string, body: Body)

  /** What one operation of the connector produced: its outcome and the calls it issued, in
      order. */
  datatype Exchange<+T> = Exchange(outcome: Result<T>, calls: seq<Call>)

  /** No certificate request is submitted among these calls. */
  predicate NoSubmission(calls: seq<Call>) {
    forall i | 0 <= i < |calls| :: calls[i].resource != Paths.CertificateRequests
  }

  /** No certificate is fetched among these calls. */
  predicate NoRetrieval(calls: seq<Call>) {
    forall i | 0 <= i < |calls| :: calls[i].resource != Paths.CertificateRetrieve
  }

  /** Appending calls to a submission-free trace submits exactly when the appended calls do. */
  lemma NoSubmissionConcat(a: seq<Call>, b: seq<Call>)
    requires NoSubmission(a)
    ensures NoSubmission(a + b) <==> NoSubmission(b)
  {
    if !NoSubmission(b) {
      var i :| 0 <= i < |b| && b[i].resource == Paths.CertificateRequests;
      assert (a + b)[|a| + i] == b[i];
    }
  }

  /** Appending calls to a retrieval-free trace retrieves exactly when the appended calls do. */
  lemma NoRetrievalConcat(a: seq<Call>, b: seq<Call>)
    requires NoRetrieval(a)
    ensures NoRetrieval(a + b) <==> NoRetrieval(b)
  {
    if !NoRetrieval(b) {
      var i :| 0 <= i < |b| && b[i].resource == Paths.CertificateRetrieve;
      assert (a + b)[|a| + i] == b[i];
    }
  }

  /** Reply to a status lookup: the HTTP status code and the decoded body. */
  datatype StatusReply = StatusReply(code: int, decoded: Option<StatusRecord>)

  /** Reply to a managed-certificate lookup. */
  datatype ManagedReply =
    | ManagedTransportError(detail: string)
    | ManagedReply(code: int, decoded: Option<ManagedCertificate>)

  /** Reply to the certificate retrieval; `pem` is the outcome of PEM decoding of the body. */
  datatype CertificateReply =
    | CertificateTransportError(detail: string)
    | CertificateReply(code: int, statusText: string, pem: Result<PemCollection>)

  /** Reply to a registration: the status code and the outcome of decoding the body as user
      details with 201 as the expected code. */
  datatype RegisterReply = RegisterReply(code: int, decoded: Result<UserDetails>)
}
