/** Fingerprint resolution: normalising a certificate fingerprint for the search request and
    reducing the search hits to a single certificate-request id.
 */
module Fingerprint {
  import opened Outcomes
  import opened Entities
  import Paths

  // ---------------------------------------------------------------------------
  // Normalisation

  predicate IsLowerAscii(c: char) {
    'a' <= c <= 'z'
  }

  function UpperChar(c: char): (u: char)
    ensures !IsLowerAscii(u)
    ensures !IsLowerAscii(c) ==> u == c
    ensures IsLowerAscii(c) ==> u as int == c as int - 'a' as int + 'A' as int
  {
    if IsLowerAscii(c) then (c as int - 'a' as int + 'A' as int) as char else c
  }

  /** Upper-cases a string, letter by letter. */
  function ToUpper(s: string): (r: string)
    ensures |r| == |s|
    ensures forall i | 0 <= i < |s| :: r[i] == UpperChar(s[i])
  {
    if |s| == 0 then "" else [UpperChar(s[0])] + ToUpper(s[1..])
  }

  /** Removes every occurrence of one character, keeping the others in order. */
  function RemoveAll(s: string, c: char): (r: string)
    ensures c !in r
    ensures forall x | x != c :: (x in r <==> x in s)
    ensures |r| <= |s|
  {
    if |s| == 0 then ""
    else if s[0] == c then RemoveAll(s[1..], c)
    else [s[0]] + RemoveAll(s[1..], c)
  }

  /** The fingerprint as sent in the search request: `:` removed, then `.` removed, then
      upper-cased. */
  function Normalize(fp: string): (r: string)
    ensures ':' !in r && '.' !in r
    ensures forall i | 0 <= i < |r| :: !IsLowerAscii(r[i])
    ensures forall x | x in fp && x != ':' && x != '.' :: UpperChar(x) in r
    ensures |r| <= |fp|
  {
    var stripped := RemoveAll(RemoveAll(fp, ':'), '.');
    var r := ToUpper(stripped);
    assert forall x | x in r :: exists i | 0 <= i < |stripped| :: x == UpperChar(stripped[i]);
    forall x | x in fp && x != ':' && x != '.'
      ensures UpperChar(x) in r
    {
      assert x in stripped;
      var i :| 0 <= i < |stripped| && stripped[i] == x;
      assert r[i] == UpperChar(x);
    }
    r
  }

  /** A single character normalises to nothing when it is a separator and to its capital
      otherwise. With `NormalizeConcat` this determines the normal form of every fingerprint:
      the non-separator characters, in order, upper-cased. */
  lemma NormalizeChar(c: char)
    ensures Normalize([c]) == if c == ':' || c == '.' then "" else [UpperChar(c)]
  {
    assert [c][1..] == [];
  }

  lemma {:induction false} RemoveAllAbsent(s: string, c: char)
    requires c !in s
    ensures RemoveAll(s, c) == s
    decreases |s|
  {
    if |s| > 0 {
      assert s[0] in s;
      assert forall x | x in s[1..] :: x in s;
      RemoveAllAbsent(s[1..], c);
      assert s == [s[0]] + s[1..];
    }
  }

  lemma {:induction false} RemoveAllConcat(a: string, b: string, c: char)
    ensures RemoveAll(a + b, c) == RemoveAll(a, c) + RemoveAll(b, c)
    decreases |a|
  {
    if |a| == 0 {
      assert a + b == b;
    } else {
      assert (a + b)[0] == a[0];
      assert (a + b)[1..] == a[1..] + b;
      RemoveAllConcat(a[1..], b, c);
    }
  }

  lemma ToUpperConcat(a: string, b: string)
    ensures ToUpper(a + b) == ToUpper(a) + ToUpper(b)
  {
  }

  /** Normalising twice is normalising once. */
  lemma NormalizeIdempotent(fp: string)
    ensures Normalize(Normalize(fp)) == Normalize(fp)
  {
    var n := Normalize(fp);
    RemoveAllAbsent(n, ':');
    RemoveAllAbsent(n, '.');
    assert ToUpper(n) == n;
  }

  lemma NormalizeConcat(a: string, b: string)
    ensures Normalize(a + b) == Normalize(a) + Normalize(b)
  {
    RemoveAllConcat(a, b, ':');
    RemoveAllConcat(RemoveAll(a, ':'), RemoveAll(b, ':'), '.');
    ToUpperConcat(RemoveAll(RemoveAll(a, ':'), '.'), RemoveAll(RemoveAll(b, ':'), '.'));
  }

  /** Reference normal form, one character at a time: separators are dropped and every other
      character is upper-cased, in order. */
  ghost function NormalForm(fp: string): string
    decreases |fp|
  {
    if |fp| == 0 then ""
    else (if fp[0] == ':' || fp[0] == '.' then "" else [UpperChar(fp[0])]) + NormalForm(fp[1..])
  }

  /** The connector's three passes agree with the one-pass reference. */
  lemma {:induction false} NormalizeIsNormalForm(fp: string)
    ensures Normalize(fp) == NormalForm(fp)
    decreases |fp|
  {
    if |fp| > 0 {
      assert fp == [fp[0]] + fp[1..];
      NormalizeConcat([fp[0]], fp[1..]);
      NormalizeChar(fp[0]);
      NormalizeIsNormalForm(fp[1..]);
    }
  }

  /** A `:` or `.` anywhere in a fingerprint does not change its normal form. */
  lemma NormalizeIgnoresSeparator(a: string, b: string, sep: char)
    requires sep == ':' || sep == '.'
    ensures Normalize(a + [sep] + b) == Normalize(a + b)
  {
    NormalizeConcat(a + [sep], b);
    NormalizeConcat(a, [sep]);
    NormalizeConcat(a, b);
    SeparatorVanishes(sep);
    assert Normalize(a) + "" == Normalize(a);
  }

  lemma SeparatorVanishes(sep: char)
    requires sep == ':' || sep == '.'
    ensures Normalize([sep]) == ""
  {
    assert [sep][1..] == [];
    assert RemoveAll([sep], sep) == "";
  }

  /** Two fingerprints that differ only in the case of their letters have the same normal form. */
  lemma {:induction false} NormalizeIgnoresCase(a: string, b: string)
    requires |a| == |b|
    requires forall i | 0 <= i < |a| :: UpperChar(a[i]) == UpperChar(b[i])
    ensures Normalize(a) == Normalize(b)
    decreases |a|
  {
    if |a| > 0 {
      NormalizeIgnoresCase(a[1..], b[1..]);
      NormalizeConcat([a[0]], a[1..]);
      NormalizeConcat([b[0]], b[1..]);
      assert a == [a[0]] + a[1..];
      assert b == [b[0]] + b[1..];
      assert [a[0]][1..] == [] && [b[0]][1..] == [];
      assert a[0] == ':' <==> b[0] == ':';
      assert a[0] == '.' <==> b[0] == '.';
    }
  }

  /** The search request for a fingerprint. */
  function SearchCall(thumbprint: string): (c: Call)
    ensures c.verb == POST && c.resource == Paths.CertificateSearch
    ensures c.body == SearchBody(Normalize(thumbprint))
  {
    Call(POST, Paths.CertificateSearch, Paths.Template(Paths.CertificateSearch), SearchBody(Normalize(thumbprint)))
  }

  // ---------------------------------------------------------------------------
  // Reducing search hits to one request id

  function RequestIds(hits: seq<SearchHit>): (ids: seq<string>)
    ensures |ids| == |hits|
    ensures forall i | 0 <= i < |hits| :: ids[i] == hits[i].certificateRequestId
  {
    if |hits| == 0 then [] else [hits[0].certificateRequestId] + RequestIds(hits[1..])
  }

  /** Reference condition for a successful reduction: once a non-empty id has been seen, every
      later id equals it. Empty ids before the first non-empty one are tolerated. */
  ghost predicate SingleRequest(ids: seq<string>) {
    forall i, j | 0 <= i < j < |ids| :: ids[i] != "" ==> ids[j] == ids[i]
  }

  /** The connector's loop over the hits: `cur` is the previous id, `consistent` is cleared when a
      non-empty previous id differs from the current one. The result is the final `cur` and
      `consistent`. */
  function Scan(ids: seq<string>, cur: string, consistent: bool): (r: (string, bool))
    ensures r.0 == if |ids| == 0 then cur else ids[|ids| - 1]
    ensures r.1 == (consistent && SingleRequest([cur] + ids))
    decreases |ids|
  {
    if |ids| == 0 then
      assert SingleRequest([cur]);
      (cur, consistent)
    else
      var step := !(cur != "" && cur != ids[0]);
      var r := Scan(ids[1..], ids[0], consistent && step);
      SingleRequestStep(cur, ids);
      r
  }

  /** Checking one consecutive pair extends the reference condition by one element. */
  lemma SingleRequestStep(cur: string, ids: seq<string>)
    requires |ids| > 0
    ensures SingleRequest([cur] + ids)
        <==> (cur != "" ==> cur == ids[0]) && SingleRequest([ids[0]] + ids[1..])
  {
    var s := [cur] + ids;
    assert [ids[0]] + ids[1..] == ids;
    assert s[1..] == ids;
    if (cur != "" ==> cur == ids[0]) && SingleRequest(ids) {
      forall i, j | 0 <= i < j < |s| && s[i] != ""
        ensures s[j] == s[i]
      {
        if i == 0 {
          assert s[1] == ids[0];
          if j > 1 {
            assert ids[0] != "" && ids[j - 1] == ids[0];
          }
        } else {
          assert s[i] == ids[i - 1] && s[j] == ids[j - 1];
        }
      }
    }
    if SingleRequest(s) {
      assert s[0] == cur && s[1] == ids[0];
      forall i, j | 0 <= i < j < |ids| && ids[i] != ""
        ensures ids[j] == ids[i]
      {
        assert s[i + 1] == ids[i] && s[j + 1] == ids[j];
      }
    }
  }

  lemma SingleRequestEmptyHead(ids: seq<string>)
    ensures SingleRequest([""] + ids) <==> SingleRequest(ids)
  {
    var s := [""] + ids;
    if SingleRequest(ids) {
      forall i, j | 0 <= i < j < |s| && s[i] != ""
        ensures s[j] == s[i]
      {
        assert i > 0 && s[i] == ids[i - 1] && s[j] == ids[j - 1];
      }
    }
    if SingleRequest(s) {
      forall i, j | 0 <= i < j < |ids| && ids[i] != ""
        ensures ids[j] == ids[i]
      {
        assert s[i + 1] == ids[i] && s[j + 1] == ids[j];
      }
    }
  }

  /** Reduction of the hits of a fingerprint search to the certificate-request id. */
  function ResolveRequestId(thumbprint: string, hits: seq<SearchHit>): (r: Result<string>)
    ensures |hits| == 0 ==> r == Err(FingerprintNotFound(thumbprint))
    ensures r.Ok? <==> |hits| > 0 && SingleRequest(RequestIds(hits))
    ensures r.Ok? ==> r.value == hits[|hits| - 1].certificateRequestId
    ensures |hits| > 0 && !SingleRequest(RequestIds(hits)) ==> r == Err(AmbiguousFingerprint(RequestIds(hits)))
  {
    if |hits| == 0 then Err(FingerprintNotFound(thumbprint))
    else
      var ids := RequestIds(hits);
      var (last, consistent) := Scan(ids, "", true);
      SingleRequestEmptyHead(ids);
      if consistent then Ok(last) else Err(AmbiguousFingerprint(ids))
  }

  /** Resolves a fingerprint to a certificate-request id: one search call, then the reduction of
      its hits. `search` is the decoded search reply. */
  function ByFingerprint(thumbprint: string, search: Result<seq<SearchHit>>): (r: Exchange<string>)
    ensures r.calls == [SearchCall(thumbprint)]
    ensures search.Err? ==> r.outcome == Err(search.error)
    ensures search.Ok? ==> r.outcome == ResolveRequestId(thumbprint, search.value)
  {
    match search
    case Err(e) => Exchange(Err(e), [SearchCall(thumbprint)])
    case Ok(hits) => Exchange(ResolveRequestId(thumbprint, hits), [SearchCall(thumbprint)])
  }

  /** Two different non-empty request ids among the hits, in either order, make the reduction
      fail with the full list of ids. */
  lemma DistinctIdsAreAmbiguous(thumbprint: string, hits: seq<SearchHit>, i: nat, j: nat)
    requires i < |hits| && j < |hits|
    requires hits[i].certificateRequestId != "" && hits[j].certificateRequestId != ""
    requires hits[i].certificateRequestId != hits[j].certificateRequestId
    ensures ResolveRequestId(thumbprint, hits) == Err(AmbiguousFingerprint(RequestIds(hits)))
  {
    var ids := RequestIds(hits);
    if i < j {
      assert ids[i] != "" && ids[j] != ids[i];
    } else {
      assert ids[j] != "" && ids[i] != ids[j];
    }
    assert !SingleRequest(ids);
  }

  /** When every hit names the same request, that request is the result. */
  lemma CommonIdResolves(thumbprint: string, hits: seq<SearchHit>, id: string)
    requires |hits| > 0
    requires forall k | 0 <= k < |hits| :: hits[k].certificateRequestId == id
    ensures ResolveRequestId(thumbprint, hits) == Ok(id)
  {
    var ids := RequestIds(hits);
    assert forall k | 0 <= k < |ids| :: ids[k] == id;
  }

  /** The comparison is with the previous id only when that id is non-empty: an empty id before
      a non-empty one is tolerated, the other order is a conflict. */
  lemma EmptyIdOrderMatters(a: SearchHit, b: SearchHit, thumbprint: string)
    requires a.certificateRequestId == "" && b.certificateRequestId != ""
    ensures ResolveRequestId(thumbprint, [a, b]) == Ok(b.certificateRequestId)
    ensures ResolveRequestId(thumbprint, [b, a]).Err?
  {
    var ids := RequestIds([a, b]);
    assert ids == [a.certificateRequestId, b.certificateRequestId];
    assert SingleRequest(ids);
    var ids' := RequestIds([b, a]);
    assert ids'[0] != "" && ids'[1] != ids'[0];
  }
}
