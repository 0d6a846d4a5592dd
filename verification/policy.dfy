/** Zone and policy resolution: looking a zone up by tag and merging the certificate policies it
    references into one policy.
 */
module ZonePolicy {
  import opened Outcomes
  import opened Entities
  import Paths

  /** Looks up the zone with the given tag; `reply` is the decoded lookup reply. */
  function GetZoneByTag(conn: Connector, tag: string, reply: Result<Zone>): (r: Exchange<Zone>)
    ensures conn.user.None? ==> r == Exchange(Err(NotAuthenticated), [])
    ensures conn.user.Some? ==> r == Exchange(reply, [Call(GET, Paths.ZoneByTag, Paths.ZoneByTagPath(tag), NoBody)])
  {
    if conn.user.None? then Exchange(Err(NotAuthenticated), [])
    else Exchange(reply, [Call(GET, Paths.ZoneByTag, Paths.ZoneByTagPath(tag), NoBody)])
  }

  // ---------------------------------------------------------------------------
  // Merging policy fragments

  /** `p` with the seven subject and SAN regex fields taken from `src`. */
  function WithIdentity(p: Policy, src: Policy): Policy {
    p.(subjectCnRegexes := src.subjectCnRegexes,
       subjectORegexes := src.subjectORegexes,
       subjectOuRegexes := src.subjectOuRegexes,
       subjectStRegexes := src.subjectStRegexes,
       subjectLRegexes := src.subjectLRegexes,
       subjectCRegexes := src.subjectCRegexes,
       sanRegexes := src.sanRegexes)
  }

  /** `p` with the key-type and key-reuse fields taken from `src`. */
  function WithUse(p: Policy, src: Policy): Policy {
    p.(keyTypes := src.keyTypes, keyReuse := src.keyReuse)
  }

  /** Folds one fragment into the policy being built, by fragment type. */
  function ApplyFragment(p: Policy, f: PolicyFragment): (r: Policy)
    ensures f.kind == IdentityPolicy ==>
      && r.subjectCnRegexes == f.fields.subjectCnRegexes && r.subjectORegexes == f.fields.subjectORegexes
      && r.subjectOuRegexes == f.fields.subjectOuRegexes && r.subjectStRegexes == f.fields.subjectStRegexes
      && r.subjectLRegexes == f.fields.subjectLRegexes && r.subjectCRegexes == f.fields.subjectCRegexes
      && r.sanRegexes == f.fields.sanRegexes
      && r.keyTypes == p.keyTypes && r.keyReuse == p.keyReuse
    ensures f.kind == UsePolicy ==>
      && r.keyTypes == f.fields.keyTypes && r.keyReuse == f.fields.keyReuse
      && WithUse(r, p) == p
    ensures f.kind.OtherPolicy? ==> r == p
  {
    match f.kind
    case IdentityPolicy => WithIdentity(p, f.fields)
    case UsePolicy => WithUse(p, f.fields)
    case OtherPolicy(_) => p
  }

  /** The last fragment of the given type, if any. */
  function LastOfKind(frags: seq<PolicyFragment>, kind: PolicyKind): (r: Option<PolicyFragment>)
    ensures r.None? <==> forall i | 0 <= i < |frags| :: frags[i].kind != kind
    ensures r.Some? ==> exists i | 0 <= i < |frags| ::
      frags[i] == r.value && kind == r.value.kind && forall j | i < j < |frags| :: frags[j].kind != kind
  {
    if |frags| == 0 then None
    else
      var later := LastOfKind(frags[1..], kind);
      assert forall j | 1 <= j < |frags| :: frags[j] == frags[1..][j - 1];
      if later.Some? then
        later
      else if frags[0].kind == kind then Some(frags[0])
      else None
  }

  /** Reference definition of the merge: the subject and SAN fields come from the last identity
      fragment, the key fields from the last use fragment, every other field from `base`. */
  function Merged(base: Policy, frags: seq<PolicyFragment>): Policy {
    var withIdentity :=
      match LastOfKind(frags, IdentityPolicy)
      case None => base
      case Some(f) => WithIdentity(base, f.fields);
    match LastOfKind(frags, UsePolicy)
    case None => withIdentity
    case Some(g) => WithUse(withIdentity, g.fields)
  }

  /** Folding one more fragment at the front agrees with the reference merge. */
  lemma MergedStep(acc: Policy, f: PolicyFragment, rest: seq<PolicyFragment>)
    ensures Merged(ApplyFragment(acc, f), rest) == Merged(acc, [f] + rest)
  {
    var all := [f] + rest;
    assert all[1..] == rest;
    assert all[0] == f;
  }

  // ---------------------------------------------------------------------------
  // Fetching the fragments

  function PolicyCall(id: string): Call {
    Call(GET, Paths.PoliciesById, Paths.PolicyPath(id), NoBody)
  }

  /** Every policy id decodes to a fragment. */
  predicate AllFetched(ids: seq<string>, fetch: string -> Result<PolicyFragment>) {
    forall i | 0 <= i < |ids| :: fetch(ids[i]).Ok?
  }

  /** `k` is the first position whose policy fails to decode. */
  predicate FirstFailure(ids: seq<string>, fetch: string -> Result<PolicyFragment>, k: int) {
    && 0 <= k < |ids|
    && fetch(ids[k]).Err?
    && forall i | 0 <= i < k :: fetch(ids[i]).Ok?
  }

  function FragmentsOf(ids: seq<string>, fetch: string -> Result<PolicyFragment>): (frags: seq<PolicyFragment>)
    requires AllFetched(ids, fetch)
    ensures |frags| == |ids|
    ensures forall i | 0 <= i < |ids| :: Ok(frags[i]) == fetch(ids[i])
  {
    seq(|ids|, i requires 0 <= i < |ids| => fetch(ids[i]).value)
  }

  lemma FragmentsCons(ids: seq<string>, fetch: string -> Result<PolicyFragment>)
    requires |ids| > 0 && AllFetched(ids, fetch)
    ensures AllFetched(ids[1..], fetch)
    ensures FragmentsOf(ids, fetch) == [fetch(ids[0]).value] + FragmentsOf(ids[1..], fetch)
  {
    assert forall i | 1 <= i < |ids| :: ids[i] == ids[1..][i - 1];
  }

  /** How far the policy loop got: its outcome and the number of ids it fetched. */
  datatype Fetched = Fetched(outcome: Result<Policy>, count: nat)

  /** The connector's loop over the policy ids: each id is fetched in order and folded into
      `acc`; the first fragment that fails to decode ends the loop with its error and no policy.
      `fetch` is the decoded reply for each policy id. The merged value is characterised by
      `FetchPoliciesMerges`. */
  function FetchPolicies(ids: seq<string>, fetch: string -> Result<PolicyFragment>, acc: Policy): (r: Fetched)
    ensures r.count <= |ids|
    ensures r.outcome.Ok? <==> AllFetched(ids, fetch)
    ensures r.outcome.Ok? ==> r.count == |ids|
    ensures r.outcome.Err? ==> FirstFailure(ids, fetch, r.count - 1) && r.outcome.error == fetch(ids[r.count - 1]).error
    decreases |ids|
  {
    if |ids| == 0 then
      Fetched(Ok(acc), 0)
    else
      match fetch(ids[0])
      case Err(e) =>
        FetchFailsFirst(ids, fetch);
        Fetched(Err(e), 1)
      case Ok(f) =>
        var rest := FetchPolicies(ids[1..], fetch, ApplyFragment(acc, f));
        FetchStepAll(ids, fetch);
        if rest.outcome.Err? then FetchStepFailure(ids, fetch, rest.count - 1); Fetched(rest.outcome, rest.count + 1)
        else Fetched(rest.outcome, rest.count + 1)
  }

  /** When every fragment decodes, the loop's policy is the reference merge of all fragments. */
  lemma {:induction false} FetchPoliciesMerges(ids: seq<string>, fetch: string -> Result<PolicyFragment>, acc: Policy)
    requires AllFetched(ids, fetch)
    ensures FetchPolicies(ids, fetch, acc).outcome == Ok(Merged(acc, FragmentsOf(ids, fetch)))
    decreases |ids|
  {
    if |ids| == 0 {
      assert FragmentsOf(ids, fetch) == [];
    } else {
      var f := fetch(ids[0]).value;
      FragmentsCons(ids, fetch);
      FetchPoliciesMerges(ids[1..], fetch, ApplyFragment(acc, f));
      MergedStep(acc, f, FragmentsOf(ids[1..], fetch));
    }
  }

  lemma FetchFailsFirst(ids: seq<string>, fetch: string -> Result<PolicyFragment>)
    requires |ids| > 0 && fetch(ids[0]).Err?
    ensures FirstFailure(ids, fetch, 0) && !AllFetched(ids, fetch)
  {
  }

  /** The policy lookups for the first `n` ids, in order. */
  function PolicyCalls(ids: seq<string>, n: nat): (calls: seq<Call>)
    requires n <= |ids|
    ensures |calls| == n && forall i | 0 <= i < n :: calls[i] == PolicyCall(ids[i])
  {
    seq(n, i requires 0 <= i < n => PolicyCall(ids[i]))
  }

  lemma FetchStepAll(ids: seq<string>, fetch: string -> Result<PolicyFragment>)
    requires |ids| > 0 && fetch(ids[0]).Ok?
    ensures AllFetched(ids, fetch) <==> AllFetched(ids[1..], fetch)
  {
    assert forall i | 1 <= i < |ids| :: ids[i] == ids[1..][i - 1];
  }

  lemma FetchStepFailure(ids: seq<string>, fetch: string -> Result<PolicyFragment>, k: int)
    requires |ids| > 0 && fetch(ids[0]).Ok?
    requires FirstFailure(ids[1..], fetch, k)
    ensures FirstFailure(ids, fetch, k + 1) && ids[k + 1] == ids[1..][k]
  {
    assert forall i | 1 <= i < |ids| :: ids[i] == ids[1..][i - 1];
  }

  /** Fetches and merges the policies with the given ids; an unauthenticated connector fails
      before any fetch, otherwise one lookup is issued per id the loop reaches. */
  function GetPoliciesById(conn: Connector, ids: seq<string>, fetch: string -> Result<PolicyFragment>): (r: Exchange<Policy>)
    ensures conn.user.None? ==> r == Exchange(Err(NotAuthenticated), [])
    ensures conn.user.Some? ==>
      var loop := FetchPolicies(ids, fetch, EmptyPolicy);
      r.outcome == loop.outcome && r.calls == PolicyCalls(ids, loop.count)
  {
    if conn.user.None? then Exchange(Err(NotAuthenticated), [])
    else
      var loop := FetchPolicies(ids, fetch, EmptyPolicy);
      Exchange(loop.outcome, PolicyCalls(ids, loop.count))
  }

  /** Reads a zone and merges its identity policy and use policy, fetched in that order. The
      zone-configuration assembly beyond the zone and the merged policy is not modelled. */
  function ReadZoneConfiguration(
    conn: Connector, tag: string, zoneReply: Result<Zone>, fetch: string -> Result<PolicyFragment>
  ): (r: Exchange<ZoneConfiguration>)
    ensures conn.user.None? ==> r == Exchange(Err(NotAuthenticated), [])
    ensures conn.user.Some? && zoneReply.Err? ==>
      r == Exchange(Err(zoneReply.error), [Call(GET, Paths.ZoneByTag, Paths.ZoneByTagPath(tag), NoBody)])
    ensures conn.user.Some? && zoneReply.Ok? ==>
      var ids := [zoneReply.value.identityPolicyId, zoneReply.value.usePolicyId];
      var loop := FetchPolicies(ids, fetch, EmptyPolicy);
      && r.calls == [Call(GET, Paths.ZoneByTag, Paths.ZoneByTagPath(tag), NoBody)] + PolicyCalls(ids, loop.count)
      && (loop.outcome.Err? ==> r.outcome == Err(loop.outcome.error))
    ensures r.outcome.Ok? <==>
      conn.user.Some? && zoneReply.Ok? && AllFetched([zoneReply.value.identityPolicyId, zoneReply.value.usePolicyId], fetch)
    ensures r.outcome.Ok? ==> zoneReply == Ok(r.outcome.value.zone)
    ensures r.outcome.Ok? ==>
      var ids := [r.outcome.value.zone.identityPolicyId, r.outcome.value.zone.usePolicyId];
      AllFetched(ids, fetch) && r.outcome.value.policy == Merged(EmptyPolicy, FragmentsOf(ids, fetch))
  {
    var z := GetZoneByTag(conn, tag, zoneReply);
    match z.outcome
    case Err(e) => Exchange(Err(e), z.calls)
    case Ok(zone) =>
      var ids := [zone.identityPolicyId, zone.usePolicyId];
      var p := GetPoliciesById(conn, ids, fetch);
      match p.outcome
      case Err(e) => Exchange(Err(e), z.calls + p.calls)
      case Ok(policy) =>
        FetchPoliciesMerges(ids, fetch, EmptyPolicy);
        Exchange(Ok(ZoneConfiguration(zone, policy)), z.calls + p.calls)
  }

  /** The policy part of the zone configuration. */
  function ReadPolicyConfiguration(
    conn: Connector, tag: string, zoneReply: Result<Zone>, fetch: string -> Result<PolicyFragment>
  ): (r: Exchange<Policy>)
    ensures var c := ReadZoneConfiguration(conn, tag, zoneReply, fetch);
      r.calls == c.calls && (r.outcome.Ok? <==> c.outcome.Ok?)
      && (r.outcome.Ok? ==> r.outcome.value == c.outcome.value.policy)
      && (r.outcome.Err? ==> r.outcome.error == c.outcome.error)
  {
    var c := ReadZoneConfiguration(conn, tag, zoneReply, fetch);
    match c.outcome
    case Err(e) => Exchange(Err(e), c.calls)
    case Ok(config) => Exchange(Ok(config.policy), c.calls)
  }

  // ---------------------------------------------------------------------------
  // Properties of the merge

  /** A zone whose identity policy and use policy decode to fragments of those types yields the
      policy made of exactly the identity fragment's subject and SAN fields and the use
      fragment's key fields. */
  lemma ZonePolicyIsUnionOfFragments(
    conn: Connector, tag: string, z: Zone, fetch: string -> Result<PolicyFragment>, a: Policy, b: Policy)
    requires conn.user.Some?
    requires fetch(z.identityPolicyId) == Ok(PolicyFragment(IdentityPolicy, a))
    requires fetch(z.usePolicyId) == Ok(PolicyFragment(UsePolicy, b))
    ensures ReadZoneConfiguration(conn, tag, Ok(z), fetch).outcome
         == Ok(ZoneConfiguration(z, Policy(
              a.subjectCnRegexes, a.subjectORegexes, a.subjectOuRegexes, a.subjectStRegexes,
              a.subjectLRegexes, a.subjectCRegexes, a.sanRegexes, b.keyTypes, b.keyReuse)))
  {
    var ids := [z.identityPolicyId, z.usePolicyId];
    assert AllFetched(ids, fetch);
    var frags := FragmentsOf(ids, fetch);
    assert frags == [PolicyFragment(IdentityPolicy, a), PolicyFragment(UsePolicy, b)];
    assert LastOfKind(frags[1..], IdentityPolicy).None?;
    assert LastOfKind(frags, IdentityPolicy) == Some(frags[0]);
  }

  /** The two fragments may come in either order: an identity fragment and a use fragment merge
      to the same policy. */
  lemma MergeOrderIrrelevant(conn: Connector, i: string, u: string, fetch: string -> Result<PolicyFragment>)
    requires fetch(i).Ok? && fetch(i).value.kind == IdentityPolicy
    requires fetch(u).Ok? && fetch(u).value.kind == UsePolicy
    ensures GetPoliciesById(conn, [i, u], fetch).outcome == GetPoliciesById(conn, [u, i], fetch).outcome
  {
    if conn.user.Some? {
      assert AllFetched([i, u], fetch) && AllFetched([u, i], fetch);
      assert FragmentsOf([i, u], fetch) == [fetch(i).value, fetch(u).value];
      assert FragmentsOf([u, i], fetch) == [fetch(u).value, fetch(i).value];
      FetchPoliciesMerges([i, u], fetch, EmptyPolicy);
      FetchPoliciesMerges([u, i], fetch, EmptyPolicy);
      PairCommutes(EmptyPolicy, fetch(i).value, fetch(u).value);
    }
  }

  /** An identity fragment and a use fragment merge to the same policy in either order. */
  lemma PairCommutes(base: Policy, a: PolicyFragment, b: PolicyFragment)
    requires a.kind == IdentityPolicy && b.kind == UsePolicy
    ensures Merged(base, [a, b]) == Merged(base, [b, a])
  {
    assert [a, b][1..] == [b] && [b, a][1..] == [a];
    assert LastOfKind([a, b], IdentityPolicy) == Some(a);
    assert LastOfKind([b, a], UsePolicy) == Some(b);
  }

  /** Fragments of other types leave the policy as it was, wherever they appear. */
  lemma OtherFragmentsIgnored(base: Policy, frags: seq<PolicyFragment>)
    requires forall i | 0 <= i < |frags| :: frags[i].kind.OtherPolicy?
    ensures Merged(base, frags) == base
  {
  }

  /** Without a fragment of a type, the fields of that type keep their empty initial value. */
  lemma MissingKindStaysEmpty(frags: seq<PolicyFragment>)
    ensures (forall i | 0 <= i < |frags| :: frags[i].kind != IdentityPolicy) ==>
      var p := Merged(EmptyPolicy, frags);
      && p.subjectCnRegexes == [] && p.subjectORegexes == [] && p.subjectOuRegexes == []
      && p.subjectStRegexes == [] && p.subjectLRegexes == [] && p.subjectCRegexes == []
      && p.sanRegexes == []
    ensures (forall i | 0 <= i < |frags| :: frags[i].kind != UsePolicy) ==>
      var p := Merged(EmptyPolicy, frags);
      p.keyTypes == [] && !p.keyReuse
  {
  }
}
