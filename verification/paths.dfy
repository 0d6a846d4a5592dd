/** Resource paths of the Venafi Cloud API, relative to the connector's base URL.

    The connector builds paths from template strings holding `%s` placeholders and Go's
    `fmt.Sprintf`. `Sprintf` below models that formatter for formats whose only verbs are
    `%s` and `%%` (the only ones the templates use), including Go's `%!s(MISSING)` and
    `%!(EXTRA ...)` markers for too few and too many arguments.
 */
module Paths {

  /** The resource templates of the connector, one constructor per constant. */
  datatype Resource =
    | UserAccounts
    | Ping
    | Zones
    | ZoneByTag
    | CertificatePolicies
    | PoliciesById
    | PoliciesForZoneById
    | CertificateRequests
    | CertificateStatus
    | CertificateRetrieve
    | CertificateSearch
    | ManagedCertificates
    | ManagedCertificateById

  const UserAccountsBase: string := "useraccounts"
  const ZonesBase: string := "zones"
  const PoliciesBase: string := "certificatepolicies"
  const RequestsBase: string := "certificaterequests"
  const ManagedBase: string := "managedcertificates"
  const Placeholder: string := "%s"

  function Template(r: Resource): string {
    match r
    case UserAccounts => UserAccountsBase
    case Ping => "ping"
    case Zones => ZonesBase
    case ZoneByTag => ZonesBase + "/tag/" + Placeholder
    case CertificatePolicies => PoliciesBase
    case PoliciesById => PoliciesBase + "/" + Placeholder
    case PoliciesForZoneById => PoliciesBase + "?zoneId=" + Placeholder
    case CertificateRequests => RequestsBase
    case CertificateStatus => RequestsBase + "/" + Placeholder
    case CertificateRetrieve => RequestsBase + "/" + Placeholder + "/certificate"
    case CertificateSearch => "certificatesearch"
    case ManagedCertificates => ManagedBase
    case ManagedCertificateById => ManagedBase + "/" + Placeholder
  }

  /** Number of identifiers each template expects. */
  function Arity(r: Resource): nat {
    match r
    case ZoneByTag | PoliciesById | PoliciesForZoneById | CertificateStatus
      | CertificateRetrieve | ManagedCertificateById => 1
    case _ => 0
  }

  /** Chain-order tokens of the retrieval query. */
  const RootFirstToken: string := "ROOT_FIRST"
  const RootLastToken: string := "EE_FIRST"

  /** Query appended to the retrieval path; it holds the chain-order placeholder. */
  const RetrieveQuery: string := "?chainOrder=" + Placeholder + "&format=PEM"

  // ---------------------------------------------------------------------------
  // Go's fmt.Sprintf restricted to the %s and %% verbs

  /** A string with no `%`: formatting leaves it as it is. */
  predicate Literal(s: string) {
    '%' !in s
  }

  /** Every `%` of `f` starts a `%s` or a `%%` directive. */
  predicate PlainFormat(f: string)
    decreases |f|
  {
    if |f| == 0 then true
    else if f[0] != '%' then PlainFormat(f[1..])
    else |f| >= 2 && (f[1] == '%' || f[1] == 's') && PlainFormat(f[2..])
  }

  /** Number of `%s` directives of a plain format. */
  function Verbs(f: string): nat
    requires PlainFormat(f)
    decreases |f|
  {
    if |f| == 0 then 0
    else if f[0] != '%' then Verbs(f[1..])
    else if f[1] == '%' then Verbs(f[2..])
    else 1 + Verbs(f[2..])
  }

  /** Go's report of arguments left over after the format is used up. */
  function Extra(args: seq<string>): string {
    if |args| == 0 then "" else "%!(EXTRA " + ExtraList(args) + ")"
  }

  function ExtraList(args: seq<string>): string
    requires |args| > 0
  {
    "string=" + args[0] + (if |args| == 1 then "" else ", " + ExtraList(args[1..]))
  }

  function Sprintf(f: string, args: seq<string>): string
    requires PlainFormat(f)
    decreases |f|
  {
    if |f| == 0 then Extra(args)
    else if f[0] != '%' then [f[0]] + Sprintf(f[1..], args)
    else if f[1] == '%' then "%" + Sprintf(f[2..], args)
    else if |args| == 0 then "%!s(MISSING)" + Sprintf(f[2..], args)
    else args[0] + Sprintf(f[2..], args[1..])
  }

  lemma {:induction false} LiteralIsPlain(p: string)
    requires Literal(p)
    ensures PlainFormat(p) && Verbs(p) == 0
    decreases |p|
  {
    if |p| > 0 {
      assert p[1..][..] == p[1..];
      assert forall c :: c in p[1..] ==> c in p;
      LiteralIsPlain(p[1..]);
    }
  }

  /** Plain formats compose: the directives of a plain prefix never swallow the suffix. */
  lemma {:induction false} PlainConcat(a: string, b: string)
    requires PlainFormat(a) && PlainFormat(b)
    ensures PlainFormat(a + b) && Verbs(a + b) == Verbs(a) + Verbs(b)
    decreases |a|
  {
    if |a| == 0 {
      assert a + b == b;
    } else if a[0] != '%' {
      assert (a + b)[1..] == a[1..] + b;
      PlainConcat(a[1..], b);
    } else {
      assert (a + b)[2..] == a[2..] + b;
      PlainConcat(a[2..], b);
    }
  }

  /** A literal prefix is copied to the output unchanged. */
  lemma {:induction false} SprintfLiteralPrefix(p: string, g: string, args: seq<string>)
    requires Literal(p) && PlainFormat(g)
    ensures PlainFormat(p + g)
    ensures Sprintf(p + g, args) == p + Sprintf(g, args)
    decreases |p|
  {
    LiteralIsPlain(p);
    PlainConcat(p, g);
    if |p| > 0 {
      LiteralTail(p);
      SprintfLiteralPrefix(p[1..], g, args);
      SprintfFirstLiteral(p, g, args);
    } else {
      assert p + g == g;
    }
  }

  lemma LiteralTail(p: string)
    requires Literal(p) && |p| > 0
    ensures p[0] != '%' && Literal(p[1..])
  {
    assert p[0] in p;
    assert forall c | c in p[1..] :: c in p;
  }

  /** One step of copying a literal character. */
  lemma SprintfFirstLiteral(p: string, g: string, args: seq<string>)
    requires |p| > 0 && p[0] != '%' && PlainFormat(g) && PlainFormat(p + g) && PlainFormat(p[1..] + g)
    requires Sprintf(p[1..] + g, args) == p[1..] + Sprintf(g, args)
    ensures Sprintf(p + g, args) == p + Sprintf(g, args)
  {
    var f := p + g;
    assert f[0] == p[0] && f[1..] == p[1..] + g;
    SprintfUnfoldLiteral(f, args);
    ConsAssoc(p, Sprintf(g, args));
  }

  lemma SprintfUnfoldLiteral(f: string, args: seq<string>)
    requires PlainFormat(f) && |f| > 0 && f[0] != '%'
    ensures PlainFormat(f[1..]) && Sprintf(f, args) == [f[0]] + Sprintf(f[1..], args)
  {
  }

  lemma ConsAssoc<T>(p: seq<T>, x: seq<T>)
    requires |p| > 0
    ensures [p[0]] + (p[1..] + x) == p + x
  {
    assert p == [p[0]] + p[1..];
  }

  /** A `%s` directive consumes the next argument verbatim, or reports it missing. */
  lemma SprintfVerb(g: string, args: seq<string>)
    requires PlainFormat(g)
    ensures PlainFormat(Placeholder + g) && Verbs(Placeholder + g) == 1 + Verbs(g)
    ensures |args| > 0 ==> Sprintf(Placeholder + g, args) == args[0] + Sprintf(g, args[1..])
    ensures |args| == 0 ==> Sprintf(Placeholder + g, args) == "%!s(MISSING)" + Sprintf(g, args)
  {
    var f := Placeholder + g;
    assert f[0] == '%' && f[1] == 's' && f[2..] == g;
  }

  /** A literal is its own formatting when no argument is left over. */
  lemma SprintfLiteral(s: string)
    requires Literal(s)
    ensures PlainFormat(s) && Sprintf(s, []) == s
  {
    SprintfLiteralPrefix(s, "", []);
    assert s + "" == s;
  }

  /** Filling a one-placeholder template with one argument splices the argument in verbatim,
      whatever characters it holds. */
  lemma SprintfSplice(p: string, s: string, x: string)
    requires Literal(p) && Literal(s)
    ensures PlainFormat(p + Placeholder + s) && Verbs(p + Placeholder + s) == 1
    ensures Sprintf(p + Placeholder + s, [x]) == p + x + s
  {
    var t := Placeholder + s;
    SpliceTail(s, x);
    SprintfLiteralPrefix(p, t, [x]);
    LiteralIsPlain(p);
    PlainConcat(p, t);
    Assoc(p, Placeholder, s);
    Assoc(p, x, s);
  }

  /** The tail `%s<s>` of a one-placeholder template, filled with one argument. */
  lemma SpliceTail(s: string, x: string)
    requires Literal(s)
    ensures PlainFormat(Placeholder + s) && Verbs(Placeholder + s) == 1
    ensures Sprintf(Placeholder + s, [x]) == x + s
  {
    SprintfLiteral(s);
    LiteralIsPlain(s);
    SprintfVerb(s, [x]);
    assert [x][1..] == [];
  }

  lemma Assoc<T>(a: seq<T>, b: seq<T>, c: seq<T>)
    ensures a + b + c == a + (b + c)
  {
  }

  /** Two placeholders with two arguments: both arguments appear verbatim, in order. */
  lemma SprintfSpliceTwo(p: string, m: string, s: string, x: string, y: string)
    requires Literal(p) && Literal(m) && Literal(s)
    ensures PlainFormat(p + Placeholder + m + Placeholder + s)
    ensures Sprintf(p + Placeholder + m + Placeholder + s, [x, y]) == p + x + m + y + s
  {
    var tail := m + Placeholder + s;
    SprintfSplice(m, s, y);
    SprintfVerb(tail, [x, y]);
    assert [x, y][1..] == [y];
    SprintfLiteralPrefix(p, Placeholder + tail, [x, y]);
    assert p + Placeholder + m + Placeholder + s == p + (Placeholder + tail);
  }

  /** Two placeholders with one argument: the second is reported missing. */
  lemma SprintfMissing(p: string, m: string, s: string, x: string)
    requires Literal(p) && Literal(m) && Literal(s)
    ensures PlainFormat(p + Placeholder + m + Placeholder + s)
    ensures Sprintf(p + Placeholder + m + Placeholder + s, [x]) == p + x + m + "%!s(MISSING)" + s
  {
    var tail := m + Placeholder + s;
    MissingTail(m, s);
    SprintfVerb(tail, [x]);
    assert [x][1..] == [];
    SprintfLiteralPrefix(p, Placeholder + tail, [x]);
    assert p + Placeholder + m + Placeholder + s == p + (Placeholder + tail);
  }

  lemma MissingTail(m: string, s: string)
    requires Literal(m) && Literal(s)
    ensures PlainFormat(m + Placeholder + s)
    ensures Sprintf(m + Placeholder + s, []) == m + "%!s(MISSING)" + s
  {
    SprintfLiteral(s);
    SprintfVerb(s, []);
    SprintfLiteralPrefix(m, Placeholder + s, []);
    assert m + Placeholder + s == m + (Placeholder + s);
  }

  lemma OneVerb(p: string)
    requires Literal(p)
    ensures PlainFormat(p + Placeholder) && Verbs(p + Placeholder) == 1
  {
    assert Placeholder[0] == '%' && Placeholder[1] == 's' && Placeholder[2..] == "";
    assert PlainFormat(Placeholder) && Verbs(Placeholder) == 1;
    LiteralIsPlain(p);
    PlainConcat(p, Placeholder);
  }

  /** The template table is consistent: every template is a plain format with exactly as many
      placeholders as the identifiers it is filled with. */
  lemma TemplatesWellFormed(r: Resource)
    ensures PlainFormat(Template(r)) && Verbs(Template(r)) == Arity(r)
  {
    match r
    case ZoneByTag => OneVerb(ZonesBase + "/tag/");
    case PoliciesById => OneVerb(PoliciesBase + "/");
    case PoliciesForZoneById => OneVerb(PoliciesBase + "?zoneId=");
    case CertificateStatus => OneVerb(RequestsBase + "/");
    case CertificateRetrieve => SprintfSplice(RequestsBase + "/", "/certificate", "");
    case ManagedCertificateById => OneVerb(ManagedBase + "/");
    case _ => LiteralIsPlain(Template(r));
  }

  // ---------------------------------------------------------------------------
  // The paths the connector requests

  /** Fills a one-placeholder template `p%s` with an identifier. */
  function FillTail(r: Resource, p: string, id: string): (path: string)
    requires Literal(p) && Template(r) == p + Placeholder
    ensures path == p + id
  {
    SprintfSplice(p, "", id);
    assert p + Placeholder + "" == p + Placeholder;
    assert p + id + "" == p + id;
    Sprintf(Template(r), [id])
  }

  /** Path of the zone with the given tag. */
  function ZoneByTagPath(tag: string): (p: string)
    ensures p == ZonesBase + "/tag/" + tag
  {
    FillTail(ZoneByTag, ZonesBase + "/tag/", tag)
  }

  /** Path of the certificate policy with the given id. */
  function PolicyPath(id: string): (p: string)
    ensures p == PoliciesBase + "/" + id
  {
    FillTail(PoliciesById, PoliciesBase + "/", id)
  }

  /** Path of the certificate request (its status record) with the given id. */
  function StatusPath(id: string): (p: string)
    ensures p == RequestsBase + "/" + id
  {
    FillTail(CertificateStatus, RequestsBase + "/", id)
  }

  /** Path of the managed certificate with the given id. */
  function ManagedCertificatePath(id: string): (p: string)
    ensures p == ManagedBase + "/" + id
  {
    FillTail(ManagedCertificateById, ManagedBase + "/", id)
  }

  /** Retrieval path with the chain-order token: the id and the token are substituted in one
      formatting pass, so each appears verbatim whatever characters it holds. */
  function RetrievePath(id: string, token: string): (p: string)
    ensures p == RequestsBase + "/" + id + "/certificate" + ("?chainOrder=" + token + "&format=PEM")
  {
    OnePass(RequestsBase + "/", "/certificate", "?chainOrder=", "&format=PEM", id, token);
    Sprintf(Template(CertificateRetrieve) + RetrieveQuery, [id, token])
  }

  lemma OnePass(p: string, m1: string, m2: string, s: string, x: string, y: string)
    requires Literal(p) && Literal(m1) && Literal(m2) && Literal(s)
    ensures PlainFormat((p + Placeholder + m1) + (m2 + Placeholder + s))
    ensures Sprintf((p + Placeholder + m1) + (m2 + Placeholder + s), [x, y]) == p + x + m1 + (m2 + y + s)
  {
    Regroup(p, Placeholder, m1, m2, Placeholder, s);
    Regroup(p, x, m1, m2, y, s);
    assert Literal(m1 + m2);
    SprintfSpliceTwo(p, m1 + m2, s, x, y);
  }

  /** Re-association of a six-part concatenation, kept apart from formatting facts. */
  lemma Regroup<T>(a: seq<T>, b: seq<T>, c: seq<T>, d: seq<T>, e: seq<T>, f: seq<T>)
    ensures (a + b + c) + (d + e + f) == a + b + (c + d) + e + f
  {
  }

  /** Retrieval path as the connector writes it: the request id is substituted first, the query
      with its chain-order placeholder is appended to the RESULT, and that result is formatted
      again, so a `%` inside the id is read as a directive by the second pass. The model covers
      ids whose `%` signs form `%s` or `%%` directives. For ids without `%` both paths agree. */
  function RetrievePathAsWritten(id: string, token: string): (p: string)
    requires PlainFormat(id)
    ensures Literal(id) ==> p == RetrievePath(id, token)
  {
    var once := FirstPass(id);
    TwoPasses(RequestsBase + "/", "/certificate", "?chainOrder=", "&format=PEM", id, token);
    Sprintf(once + RetrieveQuery, [token])
  }

  /** The first pass of the connector's retrieval-path construction: the id alone. */
  function FirstPass(id: string): (once: string)
    ensures once == RequestsBase + "/" + id + "/certificate"
  {
    SprintfSplice(RequestsBase + "/", "/certificate", id);
    Sprintf(Template(CertificateRetrieve), [id])
  }

  /** The second pass of the connector's retrieval-path construction, for any literal pieces. */
  lemma TwoPasses(p: string, m1: string, m2: string, s: string, id: string, y: string)
    requires Literal(p) && Literal(m1) && Literal(m2) && Literal(s) && PlainFormat(id)
    ensures PlainFormat((p + id + m1) + (m2 + Placeholder + s))
    ensures Literal(id) ==> Sprintf((p + id + m1) + (m2 + Placeholder + s), [y]) == p + id + m1 + (m2 + y + s)
    ensures id == Placeholder ==>
      Sprintf((p + id + m1) + (m2 + Placeholder + s), [y]) == p + y + m1 + (m2 + "%!s(MISSING)" + s)
  {
    SecondPassPlain(p, m1, m2, s, id);
    if Literal(id) {
      Regroup(p, id, m1, m2, Placeholder, s);
      Regroup(p, id, m1, m2, y, s);
      assert Literal(m1 + m2);
      SprintfSplice(p + id + (m1 + m2), s, y);
    }
    if id == Placeholder {
      Regroup(p, Placeholder, m1, m2, Placeholder, s);
      Regroup(p, y, m1, m2, "%!s(MISSING)", s);
      assert Literal(m1 + m2);
      SprintfMissing(p, m1 + m2, s, y);
    }
  }

  lemma SecondPassPlain(p: string, m1: string, m2: string, s: string, id: string)
    requires Literal(p) && Literal(m1) && Literal(m2) && Literal(s) && PlainFormat(id)
    ensures PlainFormat((p + id + m1) + (m2 + Placeholder + s))
  {
    var tail := m1 + m2 + Placeholder + s;
    assert Literal(m1 + m2);
    SprintfSplice(m1 + m2, s, "");
    LiteralIsPlain(p);
    PlainConcat(id, tail);
    PlainConcat(p, id + tail);
    Regroup2(p, id, m1, m2, Placeholder, s);
  }

  lemma Regroup2<T>(a: seq<T>, b: seq<T>, c: seq<T>, d: seq<T>, e: seq<T>, f: seq<T>)
    ensures (a + b + c) + (d + e + f) == a + (b + (c + d + e + f))
  {
  }

  /** A pickup id holding `%s` is rewritten by the second formatting pass: the chain-order token
      lands in the id's path segment and the query reports a missing argument. This holds for
      both chain-order tokens, whose first character is not `%`. */
  lemma RetrievePathAsWrittenMangles(id: string, token: string)
    requires id == Placeholder
    requires |token| > 0 && token[0] != '%'
    ensures PlainFormat(id)
    ensures RetrievePathAsWritten(id, token)
         == RequestsBase + "/" + token + "/certificate" + ("?chainOrder=" + "%!s(MISSING)" + "&format=PEM")
    ensures RetrievePathAsWritten(id, token) != RetrievePath(id, token)
  {
    OneVerb("");
    assert "" + Placeholder == Placeholder;
    var p := RequestsBase + "/";
    TwoPasses(p, "/certificate", "?chainOrder=", "&format=PEM", id, token);
    var asWritten := RetrievePathAsWritten(id, token);
    assert asWritten[|p|] == token[0];
    assert RetrievePath(id, token)[|p|] == '%';
  }
}
