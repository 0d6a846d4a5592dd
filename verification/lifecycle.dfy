/** The certificate lifecycle of the Venafi Cloud connector: authentication and registration,
    submitting a request, polling its status and retrieving the issued certificate.

    Every reply the connector would read from the service is a parameter; the wall clock of
    the polling loop is a sequence of observations, each pairing a status reply with the time
    elapsed since polling started.
 */
module Lifecycle {
  import opened Outcomes
  import opened Entities
  import Paths
  import Fingerprint
  import ZonePolicy

  // ---------------------------------------------------------------------------
  // Authentication and registration

  /** The connector after an authentication or registration attempt, and the calls issued. */
  datatype Session = Session(outcome: Result<()>, connector: Connector, calls: seq<Call>)

  function AccountsCall(verb: Method, body: Body): Call {
    Call(verb, Paths.UserAccounts, Paths.Template(Paths.UserAccounts), body)
  }

  /** Authenticates with an API key (`None` when no credentials are supplied). `reply` is the
      user-details reply decoded with 200 as the expected code. */
  function Authenticate(conn: Connector, apiKey: Option<string>, reply: Result<UserDetails>): (r: Session)
    ensures apiKey.None? ==> r == Session(Err(MissingCredentials), conn, [])
    ensures apiKey.Some? ==> r.calls == [AccountsCall(GET, NoBody)]
    ensures apiKey.Some? ==> r.connector.apiKey == apiKey.value
    ensures r.connector.zone == conn.zone
    ensures r.outcome.Ok? <==> apiKey.Some? && reply.Ok?
    ensures r.outcome.Ok? ==> r.connector.user == Some(reply.value)
    ensures r.outcome.Err? ==> r.connector.user == conn.user
    ensures apiKey.Some? && reply.Err? ==> r.outcome == Err(reply.error)
  {
    match apiKey
    case None => Session(Err(MissingCredentials), conn, [])
    case Some(key) =>
      var keyed := conn.(apiKey := key);
      match reply
      case Err(e) => Session(Err(e), keyed, [AccountsCall(GET, NoBody)])
      case Ok(ud) => Session(Ok(()), keyed.(user := Some(ud)), [AccountsCall(GET, NoBody)])
  }

  /** Registers an API account for `email`. 202 means the account already exists: nothing is
      decoded and the connector is left as it was. */
  function Register(conn: Connector, email: string, reply: RegisterReply): (r: Session)
    ensures r.calls == [AccountsCall(POST, AccountBody(email, "API"))]
    ensures reply.code == 202 ==> r.outcome.Ok? && r.connector == conn
    ensures reply.code != 202 ==> (r.outcome.Ok? <==> reply.decoded.Ok?)
    ensures reply.code != 202 && reply.decoded.Ok? ==> r.connector == conn.(user := Some(reply.decoded.value))
    ensures r.outcome.Err? ==> r.connector == conn && r.outcome == Err(reply.decoded.error)
  {
    var call := AccountsCall(POST, AccountBody(email, "API"));
    if reply.code == 202 then Session(Ok(()), conn, [call])
    else match reply.decoded
      case Err(e) => Session(Err(e), conn, [call])
      case Ok(ud) => Session(Ok(()), conn.(user := Some(ud)), [call])
  }

  // ---------------------------------------------------------------------------
  // Submitting a request

  /** A submission or a retrieval: the outcome, the caller's request as the connector left it
      (with the pickup id written back) and the calls issued. */
  datatype Handled<+T> = Handled(outcome: Result<T>, request: Request, calls: seq<Call>)

  function SubmitCall(body: SubmissionBody): Call {
    Call(POST, Paths.CertificateRequests, Paths.Template(Paths.CertificateRequests), Submission(body))
  }

  /** The id of the first request an acknowledgement lists. */
  function FirstRequestId(ack: Result<Acknowledgement>): (r: Result<string>)
    ensures r.Ok? <==> ack.Ok? && |ack.value.requestIds| > 0
    ensures r.Ok? ==> r.value == ack.value.requestIds[0]
    ensures ack.Err? ==> r == Err(ack.error)
    ensures ack.Ok? && |ack.value.requestIds| == 0 ==> r == Err(NoRequestIds)
  {
    match ack
    case Err(e) => Err(e)
    case Ok(a) => if |a.requestIds| == 0 then Err(NoRequestIds) else Ok(a.requestIds[0])
  }

  /** Submits the request's CSR to the zone with the given tag, or to the connector's zone when
      the tag is empty. `zoneReply` is the decoded zone lookup and `ack` the decoded reply to
      the submission. */
  function RequestCertificate(
    conn: Connector, req: Request, zone: string, zoneReply: Result<Zone>, ack: Result<Acknowledgement>
  ): (r: Handled<string>)
    ensures req.csrOrigin == ServiceGeneratedCsr ==> r == Handled(Err(UnsupportedCsrOrigin), req, [])
    ensures req.csrOrigin != ServiceGeneratedCsr && !HasCompany(conn) ==> r == Handled(Err(NotAuthenticated), req, [])
    ensures |r.calls| > 0 ==>
      r.calls[0] == Call(GET, Paths.ZoneByTag, Paths.ZoneByTagPath(if zone == "" then conn.zone else zone), NoBody)
    ensures zoneReply.Err? ==> NoSubmission(r.calls) && (|r.calls| > 0 ==> r.outcome == Err(zoneReply.error))
    ensures |r.calls| == 2 ==> zoneReply.Ok? && r.calls[1] == SubmitCall(SubmissionBody(zoneReply.value.id, req.csr, "", false))
    ensures |r.calls| <= 2
    ensures req.csrOrigin != ServiceGeneratedCsr && HasCompany(conn) ==>
      && (zoneReply.Err? ==> r.outcome == Err(zoneReply.error) && |r.calls| == 1)
      && (zoneReply.Ok? ==> |r.calls| == 2 && r.outcome == FirstRequestId(ack))
    ensures r.outcome.Ok? <==> req.csrOrigin != ServiceGeneratedCsr && HasCompany(conn) && zoneReply.Ok? && FirstRequestId(ack).Ok?
    ensures r.outcome.Ok? ==> |r.calls| == 2 && r.outcome == FirstRequestId(ack) && r.request == req.(pickupId := r.outcome.value)
    ensures r.outcome.Err? ==> r.request == req
  {
    var tag := if zone == "" then conn.zone else zone;
    if req.csrOrigin == ServiceGeneratedCsr then Handled(Err(UnsupportedCsrOrigin), req, [])
    else if !HasCompany(conn) then Handled(Err(NotAuthenticated), req, [])
    else
      var z := ZonePolicy.GetZoneByTag(conn, tag, zoneReply);
      match z.outcome
      case Err(e) => Handled(Err(e), req, z.calls)
      case Ok(found) =>
        var calls := z.calls + [SubmitCall(SubmissionBody(found.id, req.csr, "", false))];
        match FirstRequestId(ack)
        case Err(e) => Handled(Err(e), req, calls)
        case Ok(id) => Handled(Ok(id), req.(pickupId := id), calls)
  }

  // ---------------------------------------------------------------------------
  // Polling the request status

  /** Interpretation of a status reply: only 200 with a decodable body yields a record. */
  function FetchStatus(reply: StatusReply): (r: Result<StatusRecord>)
    ensures r.Ok? <==> reply.code == 200 && reply.decoded.Some?
    ensures r.Ok? ==> r.value == reply.decoded.value
    ensures reply.code != 200 ==> r == Err(UnexpectedStatus(reply.code))
    ensures reply.code == 200 && reply.decoded.None? ==> r == Err(MalformedResponse)
  {
    if reply.code != 200 then Err(UnexpectedStatus(reply.code))
    else match reply.decoded
      case None => Err(MalformedResponse)
      case Some(rec) => Ok(rec)
  }

  function StatusCall(id: string): Call {
    Call(GET, Paths.CertificateStatus, Paths.StatusPath(id), NoBody)
  }

  /** One status reply and the time elapsed since polling started when it was read. */
  datatype PollObservation = PollObservation(reply: StatusReply, elapsed: nat)

  datatype PollDecision = Issued | Abort(error: Error) | Wait

  /** The observation reports an issued certificate. */
  predicate IssuedAt(obs: PollObservation) {
    FetchStatus(obs.reply).Ok? && FetchStatus(obs.reply).value.status == "ISSUED"
  }

  /** The observation reports a request that is neither issued nor failed. */
  predicate InProgress(obs: PollObservation) {
    FetchStatus(obs.reply).Ok? && FetchStatus(obs.reply).value.status != "ISSUED"
      && FetchStatus(obs.reply).value.status != "FAILED"
  }

  /** What the loop does with one observation. */
  function PollStep(pickupId: string, timeout: int, obs: PollObservation): (d: PollDecision)
    ensures d == Issued <==> IssuedAt(obs)
    ensures FetchStatus(obs.reply).Err? ==> d == Abort(FetchStatus(obs.reply).error)
    ensures FetchStatus(obs.reply).Ok? && FetchStatus(obs.reply).value.status == "FAILED" ==>
      d == Abort(IssuanceFailed(FetchStatus(obs.reply).value.id))
    ensures InProgress(obs) && timeout == 0 ==>
      d == Abort(CertificatePending(pickupId, FetchStatus(obs.reply).value.status))
    ensures InProgress(obs) && timeout != 0 && obs.elapsed > timeout ==> d == Abort(RetrieveTimeout(pickupId))
    ensures d == Wait <==> InProgress(obs) && timeout != 0 && obs.elapsed <= timeout
  {
    match FetchStatus(obs.reply)
    case Err(e) => Abort(e)
    case Ok(rec) =>
      if rec.status == "ISSUED" then Issued
      else if rec.status == "FAILED" then Abort(IssuanceFailed(rec.id))
      else if timeout == 0 then Abort(CertificatePending(pickupId, rec.status))
      else if obs.elapsed > timeout then Abort(RetrieveTimeout(pickupId))
      else Wait
  }

  datatype PollEnd = Ready | Stopped(error: Error) | Unfinished

  /** How a run of the polling loop ended and how many status lookups it made. */
  datatype PollRun = PollRun(end: PollEnd, polls: nat)

  function Conclude(d: PollDecision): PollEnd {
    match d
    case Issued => Ready
    case Abort(e) => Stopped(e)
    case Wait => Unfinished
  }

  /** The polling loop over a finite sequence of observations. It ends at the first observation
      that is not a wait; `Unfinished` means every observation given was a wait. */
  function PollLoop(pickupId: string, timeout: int, obs: seq<PollObservation>): (r: PollRun)
    ensures r.polls <= |obs|
    ensures forall i | 0 <= i < r.polls - 1 :: PollStep(pickupId, timeout, obs[i]) == Wait
    ensures r.end == Unfinished ==> r.polls == |obs| && forall i | 0 <= i < |obs| :: PollStep(pickupId, timeout, obs[i]) == Wait
    ensures r.end != Unfinished ==>
      && r.polls > 0 && PollStep(pickupId, timeout, obs[r.polls - 1]) != Wait
      && r.end == Conclude(PollStep(pickupId, timeout, obs[r.polls - 1]))
  {
    if |obs| == 0 then PollRun(Unfinished, 0)
    else
      var d := PollStep(pickupId, timeout, obs[0]);
      if d != Wait then PollRun(Conclude(d), 1)
      else
        var rest := PollLoop(pickupId, timeout, obs[1..]);
        PollRun(rest.end, rest.polls + 1)
  }

  /** The loop stops exactly at the first observation that is not a wait. */
  lemma PollStopsAtFirstDecision(pickupId: string, timeout: int, obs: seq<PollObservation>, k: nat)
    requires k < |obs|
    requires forall i | 0 <= i < k :: PollStep(pickupId, timeout, obs[i]) == Wait
    requires PollStep(pickupId, timeout, obs[k]) != Wait
    ensures PollLoop(pickupId, timeout, obs) == PollRun(Conclude(PollStep(pickupId, timeout, obs[k])), k + 1)
  {
  }

  // ---------------------------------------------------------------------------
  // Retrieving the certificate

  /** The chain-order token sent to the service: root first only when asked for. */
  function ChainToken(opt: ChainOption): (t: string)
    ensures t == Paths.RootFirstToken <==> opt == ChainRootFirst
    ensures t == Paths.RootFirstToken || t == Paths.RootLastToken
  {
    if opt == ChainRootFirst then Paths.RootFirstToken else Paths.RootLastToken
  }

  /** Interpretation of the retrieval reply. 409 means the certificate is not signed yet. */
  function RetrievalOutcome(pickupId: string, reply: CertificateReply): (r: Result<PemCollection>)
    ensures r.Ok? ==> reply.CertificateReply? && reply.code == 200
    ensures reply.CertificateTransportError? ==> r == Err(Remote(reply.detail))
    ensures reply.CertificateReply? && reply.code == 200 ==> r == reply.pem
    ensures reply.CertificateReply? && reply.code == 409 ==> r == Err(CertificatePending(pickupId, ""))
    ensures reply.CertificateReply? && reply.code != 200 && reply.code != 409 ==>
      r == Err(RetrievalFailed(reply.code, reply.statusText))
  {
    match reply
    case CertificateTransportError(detail) => Err(Remote(detail))
    case CertificateReply(code, text, pem) =>
      if code == 200 then pem
      else if code == 409 then Err(CertificatePending(pickupId, ""))
      else Err(RetrievalFailed(code, text))
  }

  /** The pickup id to poll: the request's own, or the one its thumbprint resolves to when the
      request has a thumbprint but no pickup id. */
  function ResolvePickup(req: Request, search: Result<seq<SearchHit>>): (r: Exchange<string>)
    ensures req.pickupId != "" || req.thumbprint == "" ==> r == Exchange(Ok(req.pickupId), [])
    ensures req.pickupId == "" && req.thumbprint != "" ==> r == Fingerprint.ByFingerprint(req.thumbprint, search)
    ensures NoSubmission(r.calls) && NoRetrieval(r.calls)
  {
    if req.pickupId == "" && req.thumbprint != "" then Fingerprint.ByFingerprint(req.thumbprint, search)
    else Exchange(Ok(req.pickupId), [])
  }

  function RetrieveCall(id: string, opt: ChainOption): Call {
    Call(GET, Paths.CertificateRetrieve, Paths.RetrievePath(id, ChainToken(opt)), NoBody)
  }

  function StatusCalls(id: string, n: nat): (calls: seq<Call>)
    ensures |calls| == n && forall i | 0 <= i < n :: calls[i] == StatusCall(id)
    ensures NoSubmission(calls) && NoRetrieval(calls)
  {
    seq(n, _ => StatusCall(id))
  }

  /** Polls the status of the request's pickup id over `polls` and, once it is issued, fetches
      the certificate with `reply`. */
  function PollAndFetch(conn: Connector, req: Request, polls: seq<PollObservation>, reply: CertificateReply): (r: Handled<PemCollection>)
    ensures r.request == req && NoSubmission(r.calls)
    ensures NoRetrieval(r.calls) ==> r.calls == StatusCalls(req.pickupId, PollLoop(req.pickupId, req.timeout, polls).polls)
    ensures !NoRetrieval(r.calls) ==>
      var n := PollLoop(req.pickupId, req.timeout, polls).polls;
      && HasCompany(conn)
      && 0 < n <= |polls| && IssuedAt(polls[n - 1])
      && (forall i | 0 <= i < n - 1 :: PollStep(req.pickupId, req.timeout, polls[i]) == Wait)
      && r.calls == StatusCalls(req.pickupId, n) + [RetrieveCall(req.pickupId, req.chainOption)]
      && r.outcome == RetrievalOutcome(req.pickupId, reply)
    ensures PollLoop(req.pickupId, req.timeout, polls).end.Stopped? ==>
      r.outcome == Err(PollLoop(req.pickupId, req.timeout, polls).end.error)
    ensures PollLoop(req.pickupId, req.timeout, polls).end == Ready && !HasCompany(conn) ==>
      r.outcome == Err(NotAuthenticated)
    ensures NoRetrieval(r.calls) <==> !(PollLoop(req.pickupId, req.timeout, polls).end == Ready && HasCompany(conn))
    ensures r.outcome.Ok? ==> !NoRetrieval(r.calls)
  {
    var run := PollLoop(req.pickupId, req.timeout, polls);
    var polled := StatusCalls(req.pickupId, run.polls);
    match run.end
    case Unfinished => Handled(Err(PollingUnfinished), req, polled)
    case Stopped(e) => Handled(Err(e), req, polled)
    case Ready =>
      if !HasCompany(conn) then Handled(Err(NotAuthenticated), req, polled)
      else
        assert IssuedAt(polls[run.polls - 1]);
        var fetch := RetrieveCall(req.pickupId, req.chainOption);
        var calls := polled + [fetch];
        assert calls[|calls| - 1] == fetch;
        NoSubmissionConcat(polled, [fetch]);
        Handled(RetrievalOutcome(req.pickupId, reply), req, calls)
  }

  /** Retrieves the certificate for a request: resolves the pickup id, polls the status over
      `polls` until the certificate is issued, then fetches it with `reply`. */
  function RetrieveCertificate(
    conn: Connector, req: Request, search: Result<seq<SearchHit>>, polls: seq<PollObservation>, reply: CertificateReply
  ): (r: Handled<PemCollection>)
    ensures req.fetchPrivateKey ==> r == Handled(Err(PrivateKeyUnsupported), req, [])
    ensures r.request == req || (req.pickupId == "" && req.thumbprint != "" && r.request == req.(pickupId := r.request.pickupId))
    ensures !req.fetchPrivateKey ==>
      var pick := ResolvePickup(req, search);
      && |r.calls| >= |pick.calls| && r.calls[..|pick.calls|] == pick.calls
      && (pick.outcome.Err? ==> r == Handled(Err(pick.outcome.error), req, pick.calls))
    ensures !req.fetchPrivateKey && ResolvePickup(req, search).outcome.Ok? ==>
      var pick := ResolvePickup(req, search);
      var id := pick.outcome.value;
      var run := PollLoop(id, req.timeout, polls);
      && r.request == req.(pickupId := id)
      && (run.end.Stopped? ==> r.outcome == Err(run.end.error))
      && (NoRetrieval(r.calls) <==> !(run.end == Ready && HasCompany(conn)))
      && (NoRetrieval(r.calls) ==> r.calls[|pick.calls|..] == StatusCalls(id, run.polls))
      && (!NoRetrieval(r.calls) ==>
           && 0 < run.polls <= |polls| && IssuedAt(polls[run.polls - 1])
           && r.calls[|pick.calls|..] == StatusCalls(id, run.polls) + [RetrieveCall(id, req.chainOption)])
    ensures !NoRetrieval(r.calls) ==> HasCompany(conn)
    ensures r.outcome.Ok? ==> !NoRetrieval(r.calls)
    ensures !NoRetrieval(r.calls) ==>
      && |r.calls| > 0 && r.calls[|r.calls| - 1] == RetrieveCall(r.request.pickupId, req.chainOption)
      && r.outcome == RetrievalOutcome(r.request.pickupId, reply)
    ensures NoSubmission(r.calls)
  {
    if req.fetchPrivateKey then Handled(Err(PrivateKeyUnsupported), req, [])
    else
      var pick := ResolvePickup(req, search);
      match pick.outcome
      case Err(e) => Handled(Err(e), req, pick.calls)
      case Ok(id) =>
        var h := PollAndFetch(conn, req.(pickupId := id), polls, reply);
        NoRetrievalConcat(pick.calls, h.calls);
        NoSubmissionConcat(pick.calls, h.calls);
        LastOfConcat(pick.calls, h.calls);
        var calls := pick.calls + h.calls;
        assert calls[..|pick.calls|] == pick.calls && calls[|pick.calls|..] == h.calls;
        Handled(h.outcome, h.request, calls)
  }

  lemma LastOfConcat<T>(a: seq<T>, b: seq<T>)
    ensures |b| > 0 ==> |a + b| > 0 && (a + b)[|a + b| - 1] == b[|b| - 1]
  {
  }

  // ---------------------------------------------------------------------------
  // Properties of retrieval

  /** A request that names its pickup id and does not ask for the private key: no search. */
  predicate Direct(req: Request) {
    !req.fetchPrivateKey && req.pickupId != ""
  }

  /** With a zero timeout a pending request is reported at once: one status lookup, no
      retrieval, and the pending status is carried in the error. */
  lemma ZeroTimeoutReportsPending(
    conn: Connector, req: Request, search: Result<seq<SearchHit>>, polls: seq<PollObservation>, reply: CertificateReply)
    requires Direct(req) && req.timeout == 0
    requires |polls| > 0 && InProgress(polls[0])
    ensures var r := RetrieveCertificate(conn, req, search, polls, reply);
      && r.outcome == Err(CertificatePending(req.pickupId, FetchStatus(polls[0].reply).value.status))
      && r.calls == [StatusCall(req.pickupId)]
  {
    PollStopsAtFirstDecision(req.pickupId, req.timeout, polls, 0);
  }

  /** A request still in progress after the timeout has elapsed ends with a timeout error and
      is never retrieved; every earlier observation costs one status lookup. */
  lemma TimeoutStopsPolling(
    conn: Connector, req: Request, search: Result<seq<SearchHit>>, polls: seq<PollObservation>, reply: CertificateReply, k: nat)
    requires Direct(req) && req.timeout != 0
    requires k < |polls|
    requires forall i | 0 <= i < k :: InProgress(polls[i]) && polls[i].elapsed <= req.timeout
    requires InProgress(polls[k]) && polls[k].elapsed > req.timeout
    ensures var r := RetrieveCertificate(conn, req, search, polls, reply);
      && r.outcome == Err(RetrieveTimeout(req.pickupId))
      && r.calls == StatusCalls(req.pickupId, k + 1)
      && NoRetrieval(r.calls)
  {
    PollStopsAtFirstDecision(req.pickupId, req.timeout, polls, k);
  }

  /** A failed request ends polling with an issuance failure and is never retrieved. */
  lemma FailedIsFinal(
    conn: Connector, req: Request, search: Result<seq<SearchHit>>, polls: seq<PollObservation>, reply: CertificateReply, k: nat)
    requires Direct(req)
    requires k < |polls|
    requires forall i | 0 <= i < k :: PollStep(req.pickupId, req.timeout, polls[i]) == Wait
    requires FetchStatus(polls[k].reply).Ok? && FetchStatus(polls[k].reply).value.status == "FAILED"
    ensures var r := RetrieveCertificate(conn, req, search, polls, reply);
      && r.outcome == Err(IssuanceFailed(FetchStatus(polls[k].reply).value.id))
      && NoRetrieval(r.calls)
  {
    PollStopsAtFirstDecision(req.pickupId, req.timeout, polls, k);
  }

  /** A certificate issued within the timeout is fetched once, with the chain order the request
      asked for, by an authenticated connector; the fetched collection is the result. */
  lemma IssuedWithinTimeoutIsRetrieved(
    conn: Connector, req: Request, search: Result<seq<SearchHit>>, polls: seq<PollObservation>, pem: PemCollection, k: nat)
    requires Direct(req) && HasCompany(conn)
    requires k < |polls|
    requires forall i | 0 <= i < k :: PollStep(req.pickupId, req.timeout, polls[i]) == Wait
    requires IssuedAt(polls[k])
    ensures var r := RetrieveCertificate(conn, req, search, polls, CertificateReply(200, "OK", Ok(pem)));
      && r.outcome == Ok(pem)
      && r.calls == StatusCalls(req.pickupId, k + 1) + [RetrieveCall(req.pickupId, req.chainOption)]
      && r.calls[k + 1].path == Paths.RetrievePath(req.pickupId, ChainToken(req.chainOption))
  {
    PollStopsAtFirstDecision(req.pickupId, req.timeout, polls, k);
  }

  /** An unauthenticated connector polls until issuance and then stops without fetching. */
  lemma AuthenticationCheckedAfterPolling(
    conn: Connector, req: Request, search: Result<seq<SearchHit>>, polls: seq<PollObservation>, reply: CertificateReply, k: nat)
    requires Direct(req) && !HasCompany(conn)
    requires k < |polls|
    requires forall i | 0 <= i < k :: PollStep(req.pickupId, req.timeout, polls[i]) == Wait
    requires IssuedAt(polls[k])
    ensures var r := RetrieveCertificate(conn, req, search, polls, reply);
      && r.outcome == Err(NotAuthenticated)
      && r.calls == StatusCalls(req.pickupId, k + 1)
  {
    PollStopsAtFirstDecision(req.pickupId, req.timeout, polls, k);
  }

  /** A request without a pickup id but with a thumbprint is retrieved under the id the
      thumbprint resolves to, and that id is written back into the request. */
  lemma ThumbprintFillsPickupId(
    conn: Connector, req: Request, hits: seq<SearchHit>, polls: seq<PollObservation>, reply: CertificateReply)
    requires !req.fetchPrivateKey && req.pickupId == "" && req.thumbprint != ""
    requires Fingerprint.ResolveRequestId(req.thumbprint, hits).Ok?
    ensures var r := RetrieveCertificate(conn, req, Ok(hits), polls, reply);
      && r.request.pickupId == hits[|hits| - 1].certificateRequestId
      && |r.calls| > 0 && r.calls[0] == Fingerprint.SearchCall(req.thumbprint)
  {
  }

  // ---------------------------------------------------------------------------
  // Operations the service does not support

  /** The operations the cloud service does not offer. */
  datatype UnsupportedOperation = Revoke | Import

  /** Revocation and import: both fail at once, without a call. */
  function Unsupported(op: UnsupportedOperation): (r: Result<()>)
    ensures r.Err? && r.error == NotSupported
  {
    Err(NotSupported)
  }
}
