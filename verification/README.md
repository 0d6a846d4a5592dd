# Venafi Cloud connector: request, poll, retrieve and renew

A Dafny model of the Venafi Cloud ("Condor") connector of vcert, as vendored by the Terraform
Venafi provider. The connector talks to the Venafi Cloud REST API to:

- authenticate and register API accounts,
- read a zone and merge its identity and use policies,
- submit certificate requests,
- poll a request's status until it is issued,
- fetch the issued certificate,
- renew a certificate after checking that the request behind it is still the latest one for
  its managed certificate.

The transport is replaced by data. Every reply the connector would read is a parameter of the
operation:

- a status code with an already-decoded body, or
- a `Result` when the decoding is done by code outside the connector.

Every operation returns its outcome together with the sequence of calls it would issue: method,
resource, path and body. That makes statements such as "no certificate request is submitted
after a failed check" and "the certificate is fetched only after the status says ISSUED"
properties of a trace. Polling reads a finite sequence of observations. Each observation is a
status reply plus the time elapsed since polling started.

Modules:

- `Outcomes`: `Option`, `Result`, and the error kinds. There is one kind per kind of error,
  not per return statement. Several kinds are shared: `NotAuthenticated` stands for the five
  authentication checks, `NotSupported` for revocation and import, and `FingerprintNotFound` and
  `AmbiguousFingerprint` for the same checks in retrieval and in renewal.
- `Paths`: the URL template constants.
  - It holds a model of Go's `fmt.Sprintf` for the `%s` and `%%` verbs, including the
    `%!s(MISSING)` and `%!(EXTRA …)` markers.
  - It holds the paths the connector requests.
  - It holds the two ways of building the retrieval path (see Findings).
- `Entities`: the connector state, caller requests, service records, calls and replies.
- `Fingerprint`: thumbprint normalisation, the search call, and the reduction of search hits to
  one certificate-request id.
- `ZonePolicy`: the zone lookup, the policy fetch loop and the policy merge, with a reference
  definition of the merge.
- `Lifecycle`: authentication, registration, request submission, the poll step and poll loop,
  retrieval, and the unsupported revoke and import operations.
- `Renewal`: the four-step renewal.

## Model

| member | source | states |
|---|---|---|
| Paths.TemplatesWellFormed | vendor/github.com/Venafi/vcert/pkg/venafi/cloud/connector.go:34-48 | every resource template is a well-formed format whose number of `%s` placeholders equals the number of identifiers it is filled with |
| Paths.ZoneByTagPath | vendor/github.com/Venafi/vcert/pkg/venafi/cloud/connector.go:393-398 | formatting the zone-by-tag template with a tag gives `zones/tag/` followed by the tag verbatim |
| Paths.PolicyPath | vendor/github.com/Venafi/vcert/pkg/venafi/cloud/connector.go:415-417 | formatting the policy template gives `certificatepolicies/` followed by the id verbatim |
| Paths.StatusPath | vendor/github.com/Venafi/vcert/pkg/venafi/cloud/connector.go:187-189 | formatting the status template gives `certificaterequests/` followed by the id verbatim |
| Paths.ManagedCertificatePath | vendor/github.com/Venafi/vcert/pkg/venafi/cloud/connector.go:490-493 | formatting the managed-certificate template gives `managedcertificates/` followed by the id verbatim |
| Paths.RetrievePath | vendor/github.com/Venafi/vcert/pkg/venafi/cloud/connector.go:269-280 | the retrieval path, formatted in one pass, is `certificaterequests/<id>/certificate?chainOrder=<token>&format=PEM` with the id and token verbatim, for every id |
| Paths.RetrievePathAsWritten | vendor/github.com/Venafi/vcert/pkg/venafi/cloud/connector.go:273-280 | the connector's two-pass construction agrees with the one-pass path for every id without `%` |
| Paths.RetrievePathAsWrittenMangles | vendor/github.com/Venafi/vcert/pkg/venafi/cloud/connector.go:273-280 | for the id `%s`, the two-pass construction puts the chain token in the id segment and `%!s(MISSING)` in the query, so it differs from the intended path |
| Fingerprint.ToUpper | vendor/github.com/Venafi/vcert/pkg/venafi/cloud/connector.go:457 | upper-casing keeps the length, maps each ASCII lower-case letter to its capital and leaves every other character alone |
| Fingerprint.RemoveAll | vendor/github.com/Venafi/vcert/pkg/venafi/cloud/connector.go:455-456 | removing a character leaves no occurrence of it and keeps every other character |
| Fingerprint.Normalize | vendor/github.com/Venafi/vcert/pkg/venafi/cloud/connector.go:454-457 | a normalised fingerprint has no `:`, no `.` and no lower-case ASCII letter, is no longer than the input, and holds the capital of every non-separator character of the input |
| Fingerprint.NormalizeChar | vendor/github.com/Venafi/vcert/pkg/venafi/cloud/connector.go:454-457 | a single `:` or `.` normalises to nothing, and any other character to its capital |
| Fingerprint.NormalizeIsNormalForm | vendor/github.com/Venafi/vcert/pkg/venafi/cloud/connector.go:454-457 | the connector's three passes (drop `:`, drop `.`, upper-case) give exactly the non-separator characters of the input, in order, each upper-cased |
| Fingerprint.NormalizeIdempotent | vendor/github.com/Venafi/vcert/pkg/venafi/cloud/connector.go:454-457 | normalising twice is normalising once |
| Fingerprint.NormalizeConcat | vendor/github.com/Venafi/vcert/pkg/venafi/cloud/connector.go:454-457 | normalisation works piecewise over concatenation |
| Fingerprint.NormalizeIgnoresSeparator | vendor/github.com/Venafi/vcert/pkg/venafi/cloud/connector.go:455-456 | inserting a `:` or `.` anywhere in a fingerprint does not change its normal form |
| Fingerprint.NormalizeIgnoresCase | vendor/github.com/Venafi/vcert/pkg/venafi/cloud/connector.go:457 | fingerprints that differ only in ASCII letter case have the same normal form |
| Fingerprint.RequestIds | vendor/github.com/Venafi/vcert/pkg/venafi/cloud/connector.go:231-234 | the id list holds each hit's certificate-request id, in hit order |
| Fingerprint.Scan | vendor/github.com/Venafi/vcert/pkg/venafi/cloud/connector.go:231-239 | the consecutive comparison loop ends on the last id and stays consistent exactly when every id after a non-empty id equals it |
| Fingerprint.ResolveRequestId | vendor/github.com/Venafi/vcert/pkg/venafi/cloud/connector.go:227-244 | no hits is not-found; a conflict with a non-empty earlier id is an ambiguity error listing all ids; otherwise the last hit's id, and success exactly in that case |
| Fingerprint.ByFingerprint | vendor/github.com/Venafi/vcert/pkg/venafi/cloud/connector.go:305-326 | thumbprint resolution makes exactly the search call, passes a search error through and otherwise reduces the hits |
| Fingerprint.DistinctIdsAreAmbiguous | vendor/github.com/Venafi/vcert/pkg/venafi/cloud/connector.go:315-326 | any two distinct non-empty ids among the hits, in either order, make resolution fail with the full id list |
| Fingerprint.CommonIdResolves | vendor/github.com/Venafi/vcert/pkg/venafi/cloud/connector.go:231-244 | when every hit carries the same id, that id is the result |
| Fingerprint.EmptyIdOrderMatters | vendor/github.com/Venafi/vcert/pkg/venafi/cloud/connector.go:235 | an empty id followed by a non-empty one resolves to the non-empty one; the reverse order is an error |
| ZonePolicy.GetZoneByTag | vendor/github.com/Venafi/vcert/pkg/venafi/cloud/connector.go:393-408 | without a user the lookup fails before any call; otherwise one GET of the zone's tag path, whose reply is the outcome |
| ZonePolicy.ApplyFragment | vendor/github.com/Venafi/vcert/pkg/venafi/cloud/connector.go:423-435 | an identity fragment sets exactly the seven subject and SAN regex fields; a use fragment sets key types and key reuse and nothing else; any other type leaves the policy unchanged |
| ZonePolicy.LastOfKind | vendor/github.com/Venafi/vcert/pkg/venafi/cloud/connector.go:415-436 | the fragment found has the requested type and no later fragment has it; none is found exactly when no fragment has it |
| ZonePolicy.MergedStep | vendor/github.com/Venafi/vcert/pkg/venafi/cloud/connector.go:415-436 | folding one fragment into the accumulator agrees with the reference merge over the longer list |
| ZonePolicy.FetchPolicies | vendor/github.com/Venafi/vcert/pkg/venafi/cloud/connector.go:415-437 | the loop succeeds exactly when every fragment decodes, having fetched every id; otherwise it stops at the first failure, with that failure's error and no policy |
| ZonePolicy.FetchPoliciesMerges | vendor/github.com/Venafi/vcert/pkg/venafi/cloud/connector.go:415-437 | when every fragment decodes, the loop's policy is the reference merge of all fragments in id order |
| ZonePolicy.GetPoliciesById | vendor/github.com/Venafi/vcert/pkg/venafi/cloud/connector.go:410-438 | without a user it fails before any fetch; otherwise its outcome is the loop's and it issues one policy lookup per id the loop reached, in order |
| ZonePolicy.ReadZoneConfiguration | vendor/github.com/Venafi/vcert/pkg/venafi/cloud/connector.go:140-151 | without a user it fails with no call; otherwise one zone GET, whose error is the outcome when the zone is not found; for a found zone, one policy lookup per id the loop reaches, identity first, and the loop's error on a failed fetch; it succeeds exactly when the zone is found and both policies decode, and then holds that zone and the reference merge of its two policies |
| ZonePolicy.ReadPolicyConfiguration | vendor/github.com/Venafi/vcert/pkg/venafi/cloud/connector.go:130-137 | the policy is the zone configuration's policy, with the same calls, the same success and the same error |
| ZonePolicy.ZonePolicyIsUnionOfFragments | vendor/github.com/Venafi/vcert/pkg/venafi/cloud/connector.go:140-151 | a zone whose two policies decode to an identity and a use fragment yields exactly the identity fragment's regex fields plus the use fragment's key fields |
| ZonePolicy.MergeOrderIrrelevant | vendor/github.com/Venafi/vcert/pkg/venafi/cloud/connector.go:423-435 | an identity and a use fragment merge to the same policy in either order |
| ZonePolicy.OtherFragmentsIgnored | vendor/github.com/Venafi/vcert/pkg/venafi/cloud/connector.go:423-435 | fragments of other types leave the policy as it was |
| ZonePolicy.MissingKindStaysEmpty | vendor/github.com/Venafi/vcert/pkg/venafi/cloud/connector.go:411-436 | without an identity fragment the regex fields stay empty; without a use fragment the key fields stay empty and reuse false |
| Lifecycle.Authenticate | vendor/github.com/Venafi/vcert/pkg/venafi/cloud/connector.go:97-110 | missing credentials fail with no call; otherwise the key is stored even on failure and the user only on success, which happens exactly when the user details decode |
| Lifecycle.Register | vendor/github.com/Venafi/vcert/pkg/venafi/cloud/connector.go:113-128 | one POST of an API account for the e-mail; 202 succeeds and changes nothing; otherwise success exactly when the reply decodes, and then the user is stored |
| Lifecycle.FirstRequestId | vendor/github.com/Venafi/vcert/pkg/venafi/cloud/connector.go:182 | the result is the first acknowledged id; an empty acknowledgement is an error |
| Lifecycle.RequestCertificate | vendor/github.com/Venafi/vcert/pkg/venafi/cloud/connector.go:154-185 | a service-generated CSR fails before the authentication check with no call; a missing user or company fails with no call; an empty zone falls back to the connector's; once both checks pass, the zone GET is issued and a failed lookup ends with its error and submits nothing, while a found zone is always followed by the POST, whose decoded acknowledgement decides the outcome; success exactly when every step succeeds, returning the first acknowledged id and storing it as pickup id |
| Lifecycle.FetchStatus | vendor/github.com/Venafi/vcert/pkg/venafi/cloud/connector.go:187-211 | a status record is returned exactly for a 200 reply with a decodable body; any other code is an unexpected-status error |
| Lifecycle.PollStep | vendor/github.com/Venafi/vcert/pkg/venafi/cloud/connector.go:249-264 | a fetch error aborts with it; ISSUED proceeds and is the only way to proceed; FAILED aborts; any other status is pending with timeout 0, timed out strictly past the timeout, and otherwise waits, and waiting happens exactly then |
| Lifecycle.PollLoop | vendor/github.com/Venafi/vcert/pkg/venafi/cloud/connector.go:248-267 | the loop polls until the first observation that is not a wait and ends with that observation's decision; every earlier observation was a wait |
| Lifecycle.PollStopsAtFirstDecision | vendor/github.com/Venafi/vcert/pkg/venafi/cloud/connector.go:248-267 | given the first deciding observation, the loop makes exactly that many polls and ends with its decision |
| Lifecycle.ChainToken | vendor/github.com/Venafi/vcert/pkg/venafi/cloud/connector.go:275-280 | the token is ROOT_FIRST exactly when the option is root-first, and EE_FIRST otherwise |
| Lifecycle.RetrievalOutcome | vendor/github.com/Venafi/vcert/pkg/venafi/cloud/connector.go:281-291 | only a 200 reply yields a certificate, through PEM decoding; 409 is pending; any other code is a failure carrying the code and status text; a transport error is passed through |
| Lifecycle.ResolvePickup | vendor/github.com/Venafi/vcert/pkg/venafi/cloud/connector.go:220-245 | the thumbprint is resolved only when the pickup id is empty and a thumbprint is given; otherwise the pickup id is used with no call |
| Lifecycle.PollAndFetch | vendor/github.com/Venafi/vcert/pkg/venafi/cloud/connector.go:247-291 | nothing is submitted; there is one status call per observation the loop read; the certificate is fetched exactly when the loop ended on ISSUED (every earlier observation a wait) and the connector is authenticated, as one call after the status calls, and then the fetch reply decides the outcome; a loop stopped by an error, FAILED, pending or timeout yields that error; success implies the fetch |
| Lifecycle.RetrieveCertificate | vendor/github.com/Venafi/vcert/pkg/venafi/cloud/connector.go:214-292 | a private-key fetch fails before any call; a thumbprint search, if any, comes first and its failure ends the retrieval; nothing is submitted; after it come one status call per observation read and, exactly when polling ended on ISSUED and the connector is authenticated, one fetch on the one-pass retrieval path whose reply decides the outcome; a loop stopped by an error yields that error; success implies the fetch |
| Lifecycle.ZeroTimeoutReportsPending | vendor/github.com/Venafi/vcert/pkg/venafi/cloud/connector.go:259-261 | with timeout 0 a pending request costs one status call and fails pending with its status, without a fetch |
| Lifecycle.TimeoutStopsPolling | vendor/github.com/Venafi/vcert/pkg/venafi/cloud/connector.go:262-264 | a request still pending strictly past the timeout fails with a timeout after one status call per observation, without a fetch |
| Lifecycle.FailedIsFinal | vendor/github.com/Venafi/vcert/pkg/venafi/cloud/connector.go:255-257 | a FAILED status ends polling with an issuance failure and no fetch |
| Lifecycle.IssuedWithinTimeoutIsRetrieved | vendor/github.com/Venafi/vcert/pkg/venafi/cloud/connector.go:253-286 | an ISSUED status after waits leads to exactly one fetch with the requested chain order, and the fetched collection is the result |
| Lifecycle.AuthenticationCheckedAfterPolling | vendor/github.com/Venafi/vcert/pkg/venafi/cloud/connector.go:269-272 | an unauthenticated connector still polls until ISSUED and then fails without fetching |
| Lifecycle.ThumbprintFillsPickupId | vendor/github.com/Venafi/vcert/pkg/venafi/cloud/connector.go:220-245 | a request with a thumbprint and no pickup id starts with the search and gets the resolved id written back as its pickup id |
| Lifecycle.Unsupported | vendor/github.com/Venafi/vcert/pkg/venafi/cloud/connector.go:294-297 | revocation fails at once as unsupported; import, at lines 523-525, fails the same way |
| Renewal.RenewalTarget | vendor/github.com/Venafi/vcert/pkg/venafi/cloud/connector.go:302-332 | the thumbprint is resolved when present; otherwise the DN is the request id; with neither the renewal fails with no call |
| Renewal.ManagedOutcome | vendor/github.com/Venafi/vcert/pkg/venafi/cloud/connector.go:490-521 | a managed certificate is returned exactly for a 200 reply with a decodable body; other codes are unexpected-status errors and transport errors pass through |
| Renewal.RenewalBody | vendor/github.com/Venafi/vcert/pkg/venafi/cloud/connector.go:374-380 | the body carries the prior zone and managed certificate; it carries a CSR exactly when it does not ask for reuse, and a non-empty new CSR is carried as given |
| Renewal.RenewFrom | vendor/github.com/Venafi/vcert/pkg/venafi/cloud/connector.go:334-390 | status lookup first, and a failed status lookup ends with its error; an empty managed-certificate id, then an empty zone id, ends with its own error after that one call; a complete record is always followed by the managed-certificate lookup, whose failure is the outcome; a stale latest id fails with the request, thumbprint, managed id and latest id; a submission happens exactly when both lookups succeed, the ids are non-empty, the request is still the latest and the connector is authenticated, and then the first acknowledged id is the outcome |
| Renewal.RenewCertificate | vendor/github.com/Venafi/vcert/pkg/venafi/cloud/connector.go:300-391 | a failed target selection is the outcome; otherwise the outcome is the renewal from the selected request and the calls are the selection's calls followed by that renewal's, so the target's status lookup follows them; a renewal is submitted exactly when the renewal conditions hold; success implies a submission and returns the first acknowledged id |
| Renewal.RenewalByDn | vendor/github.com/Venafi/vcert/pkg/venafi/cloud/connector.go:327-329 | a renewal by DN makes no call before the status lookup of the request the DN names, and then proceeds as the renewal of that request |
| Renewal.ThumbprintTakesPrecedence | vendor/github.com/Venafi/vcert/pkg/venafi/cloud/connector.go:305-332 | when a thumbprint is given, the DN has no effect on the renewal |
| Renewal.StaleTargetIsRefused | vendor/github.com/Venafi/vcert/pkg/venafi/cloud/connector.go:356-366 | renewing request R1 of managed certificate M1 whose latest request is R2 fails as stale after the two lookups, with no POST |
| Renewal.RenewalByDnSubmits | vendor/github.com/Venafi/vcert/pkg/venafi/cloud/connector.go:334-390 | when the lookups agree and the connector is authenticated, exactly one POST with the renewal body follows the two lookups, and the first acknowledged id is the result |
| Renewal.IncompletePriorIsRefused | vendor/github.com/Venafi/vcert/pkg/venafi/cloud/connector.go:342-348 | an empty managed-certificate id, checked first, or an empty zone id fails the renewal with the prior status and submits nothing |

## Left out

- `Ping`, `getURL`, `SetBaseURL`, `NewConnector`, `SetZone`, `GetType`, the verbosity flag and the
  trust pool: plumbing with no decision logic. Paths are modelled relative to the base URL.
- `c.request`, the JSON decoders, `parseResponseErrors` and `newPEMCollectionFromResponse` are
  not part of this model. Their results are inputs: a decoded `Result`, or a status code with an
  optional decoded body.
- PEM chain reordering after a 200 retrieval reply is done by the decoder and is not modelled.
  The decoded collection is taken as given.
- `getZoneConfiguration`, which assembles the full zone configuration from the zone, the user and
  the merged policy, is not part of this model. The configuration is the zone plus the merged
  policy.
- `time.Now`, `time.Sleep` and the two-second poll interval are replaced by observations. Each
  observation pairs a status reply with the elapsed time at the timeout check.
- The connector has no cancellation, so none is modelled.
- Error message texts are replaced by error kinds carrying the same identifiers. Wrapping
  prefixes such as "unable to retrieve:" are not kept.
- URL escaping is left out: the connector does none, and the model substitutes identifiers
  verbatim.
- Fingerprint.ToUpper: upper-cases ASCII letters only, because Go's `strings.ToUpper` applies
  full Unicode case mapping, which is not modelled. Fingerprints are hexadecimal.
- Paths.Sprintf: models only the `%s` and `%%` verbs, because they are the only verbs the
  templates use. Paths.RetrievePathAsWritten accordingly requires every `%` in the id to start
  one of them.
- Lifecycle.PollLoop: a run that uses up the finite observation sequence while still waiting
  ends in `Unfinished`. `RetrieveCertificate` reports this as `PollingUnfinished`. The real loop
  would keep polling.
- Lifecycle.RequestCertificate: the submission body carries the request's CSR even when it is
  empty, and `reuseCsr` is false. The rule "exactly one of a CSR or reuse" holds only for renewal
  bodies (`Renewal.RenewalBody`), because the connector does not enforce it for first requests.
- Lifecycle.FirstRequestId: an empty acknowledgement list is a run-time panic in the connector
  (it indexes element 0). The model reports it as the error `NoRequestIds`.
- Lifecycle.RetrieveCertificate: fetches on the corrected one-pass path `Paths.RetrievePath`.
  For a pickup id containing `%`, the connector requests a different path, the one
  `Paths.RetrievePathAsWritten` builds (see Findings). For every id without `%` the two
  agree (the contract of `Paths.RetrievePathAsWritten`).
- Lifecycle.RetrieveCertificate: the authentication check comes after polling, and
  `Renewal.RenewCertificate`'s check comes after the status and managed-certificate lookups, and
  after the fingerprint search when a thumbprint is given. Both follow the code, which
  checks later than a caller might expect.
- A Go `time.Duration` timeout is an `int` here and elapsed time a `nat`. "Past the timeout" is
  the strict comparison `elapsed > timeout` of `time.After`.

## Findings

| source | as written | input that shows it | evidently intended | confidence | as-written member | corrected member |
|---|---|---|---|---|---|---|
| vendor/github.com/Venafi/vcert/pkg/venafi/cloud/connector.go:273-280 | the pickup id is substituted into the retrieval template, the query with its `%s` is appended to the result, and the whole string is formatted again, so `%` directives inside the id are interpreted by the second pass | pickup id `%s` with the default chain option: the path becomes `certificaterequests/EE_FIRST/certificate?chainOrder=%!s(MISSING)&format=PEM` | the id and the chain token are each substituted once and appear verbatim: `certificaterequests/%s/certificate?chainOrder=EE_FIRST&format=PEM` | medium, not executed | Paths.RetrievePathAsWrittenMangles | Paths.RetrievePath |
