/** Renewal of a certificate by the Venafi Cloud connector: find the certificate request that
    issued it, look up its managed certificate, check that the request is still the latest one
    for it, and submit a renewal request.
 */
module Renewal {
  import opened Outcomes
  import opened Entities
  import Paths
  import Fingerprint
  import Lifecycle

  /** The certificate-request id a renewal starts from. The thumbprint takes precedence over
      the DN; with neither, the renewal is refused before any call. */
  function RenewalTarget(rr: RenewalRequest, search: Result<seq<SearchHit>>): (r: Exchange<string>)
    ensures rr.thumbprint != "" ==> r == Fingerprint.ByFingerprint(rr.thumbprint, search)
    ensures rr.thumbprint == "" && rr.certificateDn != "" ==> r == Exchange(Ok(rr.certificateDn), [])
    ensures rr.thumbprint == "" && rr.certificateDn == "" ==> r == Exchange(Err(MissingRenewalTarget), [])
  {
    if rr.thumbprint != "" then Fingerprint.ByFingerprint(rr.thumbprint, search)
    else if rr.certificateDn != "" then Exchange(Ok(rr.certificateDn), [])
    else Exchange(Err(MissingRenewalTarget), [])
  }

  function ManagedCall(id: string): Call {
    Call(GET, Paths.ManagedCertificateById, Paths.ManagedCertificatePath(id), NoBody)
  }

  /** Interpretation of the managed-certificate reply: only 200 with a decodable body yields a
      record. */
  function ManagedOutcome(reply: ManagedReply): (r: Result<ManagedCertificate>)
    ensures r.Ok? <==> reply.ManagedReply? && reply.code == 200 && reply.decoded.Some?
    ensures r.Ok? ==> r.value == reply.decoded.value
    ensures reply.ManagedTransportError? ==> r == Err(Remote(reply.detail))
    ensures reply.ManagedReply? && reply.code != 200 ==> r == Err(UnexpectedStatus(reply.code))
    ensures reply.ManagedReply? && reply.code == 200 && reply.decoded.None? ==> r == Err(MalformedResponse)
  {
    match reply
    case ManagedTransportError(detail) => Err(Remote(detail))
    case ManagedReply(code, decoded) =>
      if code != 200 then Err(UnexpectedStatus(code))
      else match decoded
        case None => Err(MalformedResponse)
        case Some(m) => Ok(m)
  }

  /** The renewal carries a new CSR. */
  predicate HasNewCsr(rr: RenewalRequest) {
    rr.certificateRequest.Some? && |rr.certificateRequest.value.csr| > 0
  }

  /** Body of the renewal submission: either a new CSR, or the request to reuse the old one. */
  function RenewalBody(zoneId: string, managedId: string, rr: RenewalRequest): (b: SubmissionBody)
    ensures b.zoneId == zoneId && b.existingManagedCertificateId == managedId
    ensures b.reuseCsr <==> b.csr == ""
    ensures b.reuseCsr <==> !HasNewCsr(rr)
    ensures HasNewCsr(rr) ==> b.csr == rr.certificateRequest.value.csr
  {
    if HasNewCsr(rr) then SubmissionBody(zoneId, rr.certificateRequest.value.csr, managedId, false)
    else SubmissionBody(zoneId, "", managedId, true)
  }

  /** The lookups a renewal performs before submitting succeeded and agree: the prior request
      names a managed certificate and a zone, and it is still that certificate's latest request. */
  predicate Renewable(id: string, prior: StatusReply, managed: ManagedReply) {
    && Lifecycle.FetchStatus(prior).Ok?
    && Lifecycle.FetchStatus(prior).value.managedCertificateId != ""
    && Lifecycle.FetchStatus(prior).value.zoneId != ""
    && ManagedOutcome(managed).Ok?
    && ManagedOutcome(managed).value.latestCertificateRequestId == id
  }

  /** The calls a renewal of request `id` makes after finding it, as far as it gets. */
  function RenewFrom(conn: Connector, rr: RenewalRequest, id: string, prior: StatusReply, managed: ManagedReply, ack: Result<Acknowledgement>): (r: Exchange<string>)
    ensures 1 <= |r.calls| <= 3 && r.calls[0] == Lifecycle.StatusCall(id)
    ensures |r.calls| >= 2 ==> Lifecycle.FetchStatus(prior).Ok? && r.calls[1] == ManagedCall(Lifecycle.FetchStatus(prior).value.managedCertificateId)
    ensures NoSubmission(r.calls) <==> !(Renewable(id, prior, managed) && HasCompany(conn))
    ensures !NoSubmission(r.calls) ==>
      && |r.calls| == 3
      && r.calls[2] == Lifecycle.SubmitCall(RenewalBody(
           Lifecycle.FetchStatus(prior).value.zoneId, Lifecycle.FetchStatus(prior).value.managedCertificateId, rr))
      && r.outcome == Lifecycle.FirstRequestId(ack)
    ensures Renewable(id, prior, managed) && !HasCompany(conn) ==> r.outcome == Err(NotAuthenticated) && |r.calls| == 2
    ensures r.outcome.Ok? ==> !NoSubmission(r.calls)
    ensures Lifecycle.FetchStatus(prior).Err? ==>
      r == Exchange(Err(Lifecycle.FetchStatus(prior).error), [Lifecycle.StatusCall(id)])
    ensures Lifecycle.FetchStatus(prior).Ok? ==>
      var rec := Lifecycle.FetchStatus(prior).value;
      && (rec.managedCertificateId == "" ==> r == Exchange(Err(EmptyManagedCertificateId(rec.status)), [Lifecycle.StatusCall(id)]))
      && (rec.managedCertificateId != "" && rec.zoneId == "" ==> r == Exchange(Err(EmptyZoneId(rec.status)), [Lifecycle.StatusCall(id)]))
      && (rec.managedCertificateId != "" && rec.zoneId != "" ==> |r.calls| >= 2)
    ensures |r.calls| >= 2 && ManagedOutcome(managed).Err? ==> r.outcome == Err(ManagedOutcome(managed).error) && |r.calls| == 2
    ensures |r.calls| >= 2 && ManagedOutcome(managed).Ok? && ManagedOutcome(managed).value.latestCertificateRequestId != id ==>
      && r.outcome == Err(StaleRenewalTarget(id, rr.thumbprint, Lifecycle.FetchStatus(prior).value.managedCertificateId,
                                             ManagedOutcome(managed).value.latestCertificateRequestId))
      && |r.calls| == 2
  {
    var statusCall := Lifecycle.StatusCall(id);
    match Lifecycle.FetchStatus(prior)
    case Err(e) => Exchange(Err(e), [statusCall])
    case Ok(rec) =>
      if rec.managedCertificateId == "" then Exchange(Err(EmptyManagedCertificateId(rec.status)), [statusCall])
      else if rec.zoneId == "" then Exchange(Err(EmptyZoneId(rec.status)), [statusCall])
      else
        var looked := [statusCall, ManagedCall(rec.managedCertificateId)];
        match ManagedOutcome(managed)
        case Err(e) => Exchange(Err(e), looked)
        case Ok(m) =>
          if m.latestCertificateRequestId != id then
            Exchange(Err(StaleRenewalTarget(id, rr.thumbprint, rec.managedCertificateId, m.latestCertificateRequestId)), looked)
          else if !HasCompany(conn) then Exchange(Err(NotAuthenticated), looked)
          else
            var calls := looked + [Lifecycle.SubmitCall(RenewalBody(rec.zoneId, rec.managedCertificateId, rr))];
            assert calls[2].resource == Paths.CertificateRequests;
            Exchange(Lifecycle.FirstRequestId(ack), calls)
  }

  /** Renews a certificate. `search` is the decoded fingerprint search, `prior` the status of the
      request found, `managed` the managed-certificate lookup and `ack` the decoded reply to the
      submission. */
  function RenewCertificate(
    conn: Connector, rr: RenewalRequest, search: Result<seq<SearchHit>>,
    prior: StatusReply, managed: ManagedReply, ack: Result<Acknowledgement>
  ): (r: Exchange<string>)
    ensures RenewalTarget(rr, search).outcome.Err? ==>
      r == Exchange(RenewalTarget(rr, search).outcome, RenewalTarget(rr, search).calls)
    ensures RenewalTarget(rr, search).outcome.Ok? ==>
      var id := RenewalTarget(rr, search).outcome.value;
      var t := RenewalTarget(rr, search).calls;
      && |r.calls| > |t| && r.calls[..|t|] == t
      && r.calls[|t|] == Lifecycle.StatusCall(id)
      && (NoSubmission(r.calls) <==> !(Renewable(id, prior, managed) && HasCompany(conn)))
    ensures RenewalTarget(rr, search).outcome.Ok? ==>
      var t := RenewalTarget(rr, search);
      var rest := RenewFrom(conn, rr, t.outcome.value, prior, managed, ack);
      r.outcome == rest.outcome && r.calls == t.calls + rest.calls
    ensures r.outcome.Ok? ==> !NoSubmission(r.calls) && r.outcome == Lifecycle.FirstRequestId(ack)
    ensures rr.thumbprint == "" && rr.certificateDn == "" ==> r == Exchange(Err(MissingRenewalTarget), [])
  {
    var t := RenewalTarget(rr, search);
    match t.outcome
    case Err(e) => Exchange(Err(e), t.calls)
    case Ok(id) =>
      var rest := RenewFrom(conn, rr, id, prior, managed, ack);
      NoSubmissionConcat(t.calls, rest.calls);
      Exchange(rest.outcome, t.calls + rest.calls)
  }

  // ---------------------------------------------------------------------------
  // Properties of renewal

  /** A renewal by DN is the renewal of the request the DN names, with no calls before it. */
  lemma RenewalByDn(
    conn: Connector, rr: RenewalRequest, search: Result<seq<SearchHit>>,
    prior: StatusReply, managed: ManagedReply, ack: Result<Acknowledgement>)
    requires rr.thumbprint == "" && rr.certificateDn != ""
    ensures RenewCertificate(conn, rr, search, prior, managed, ack) == RenewFrom(conn, rr, rr.certificateDn, prior, managed, ack)
  {
    var rest := RenewFrom(conn, rr, rr.certificateDn, prior, managed, ack);
    assert [] + rest.calls == rest.calls;
  }

  /** Whenever a thumbprint is given, the DN plays no part. */
  lemma ThumbprintTakesPrecedence(
    conn: Connector, rr: RenewalRequest, dn: string, search: Result<seq<SearchHit>>,
    prior: StatusReply, managed: ManagedReply, ack: Result<Acknowledgement>)
    requires rr.thumbprint != ""
    ensures RenewCertificate(conn, rr, search, prior, managed, ack)
         == RenewCertificate(conn, rr.(certificateDn := dn), search, prior, managed, ack)
  {
  }

  /** A renewal by DN of request R1, whose managed certificate M1 has since been renewed by
      request R2, is refused after the two lookups and submits nothing. */
  lemma StaleTargetIsRefused(
    conn: Connector, rr: RenewalRequest, rec: StatusRecord, m: ManagedCertificate, ack: Result<Acknowledgement>)
    requires rr.thumbprint == "" && rr.certificateDn != ""
    requires rec.managedCertificateId != "" && rec.zoneId != ""
    requires m.latestCertificateRequestId != rr.certificateDn
    ensures var r := RenewCertificate(conn, rr, Err(MalformedResponse), StatusReply(200, Some(rec)), ManagedReply(200, Some(m)), ack);
      && r.outcome == Err(StaleRenewalTarget(rr.certificateDn, "", rec.managedCertificateId, m.latestCertificateRequestId))
      && r.calls == [Lifecycle.StatusCall(rr.certificateDn), ManagedCall(rec.managedCertificateId)]
      && NoSubmission(r.calls)
  {
    RenewalByDn(conn, rr, Err(MalformedResponse), StatusReply(200, Some(rec)), ManagedReply(200, Some(m)), ack);
  }

  /** A renewal by DN whose lookups agree submits one request to the prior request's zone and
      managed certificate, reusing the old CSR unless a new one is supplied. */
  lemma RenewalByDnSubmits(
    conn: Connector, rr: RenewalRequest, rec: StatusRecord, m: ManagedCertificate, ack: Result<Acknowledgement>)
    requires rr.thumbprint == "" && rr.certificateDn != "" && HasCompany(conn)
    requires rec.managedCertificateId != "" && rec.zoneId != ""
    requires m.latestCertificateRequestId == rr.certificateDn
    ensures var r := RenewCertificate(conn, rr, Err(MalformedResponse), StatusReply(200, Some(rec)), ManagedReply(200, Some(m)), ack);
      && r.outcome == Lifecycle.FirstRequestId(ack)
      && r.calls == [Lifecycle.StatusCall(rr.certificateDn), ManagedCall(rec.managedCertificateId),
                     Lifecycle.SubmitCall(RenewalBody(rec.zoneId, rec.managedCertificateId, rr))]
  {
    RenewalByDn(conn, rr, Err(MalformedResponse), StatusReply(200, Some(rec)), ManagedReply(200, Some(m)), ack);
  }

  /** A prior request with no managed certificate or no zone stops the renewal after the status
      lookup, carrying the prior request's status. */
  lemma IncompletePriorIsRefused(
    conn: Connector, rr: RenewalRequest, search: Result<seq<SearchHit>>, rec: StatusRecord,
    managed: ManagedReply, ack: Result<Acknowledgement>)
    requires RenewalTarget(rr, search).outcome.Ok?
    requires rec.managedCertificateId == "" || rec.zoneId == ""
    ensures var r := RenewCertificate(conn, rr, search, StatusReply(200, Some(rec)), managed, ack);
      && r.outcome == (if rec.managedCertificateId == "" then Err(EmptyManagedCertificateId(rec.status))
                       else Err(EmptyZoneId(rec.status)))
      && NoSubmission(r.calls)
  {
  }
}
