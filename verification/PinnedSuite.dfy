/** The pinned upstream catalogs of `official_conformance.py`. */
module PinnedSuite {
  import opened RegressionReport
  import opened ComplianceReport
  import opened ComplianceLaws

  function NonAuthScenarios(m: Mode): seq<string> {
    match m
    case Shipping => ["initialize", "tools_call"]
    case Legacy => ["initialize", "tools_call", "elicitation-sep1034-client-defaults", "sse-retry"]
    case Modern => ["tools_call", "request-metadata", "sep-2322-client-request-state", "http-standard-headers",
                    "http-custom-headers", "http-invalid-tool-headers", "json-schema-ref-no-deref"]
  }

  const TOKEN_ENDPOINT: seq<string> :=
    ["auth/token-endpoint-auth-basic", "auth/token-endpoint-auth-post", "auth/token-endpoint-auth-none"]

  const DISCOVERY_AND_SCOPES: seq<string> :=
    ["auth/metadata-default", "auth/metadata-var1", "auth/metadata-var2", "auth/metadata-var3", "auth/basic-cimd",
     "auth/scope-from-www-authenticate", "auth/scope-from-scopes-supported", "auth/scope-omitted-when-undefined",
     "auth/scope-step-up", "auth/scope-retry-limit"]

  const MODERN_ONLY: seq<string> :=
    ["auth/resource-mismatch", "auth/offline-access-scope", "auth/offline-access-not-supported",
     "auth/authorization-server-migration", "auth/iss-supported", "auth/iss-not-advertised",
     "auth/iss-supported-missing", "auth/iss-wrong-issuer", "auth/iss-unexpected", "auth/iss-normalized",
     "auth/metadata-issuer-mismatch"]

  function AuthScenarios(m: Mode): seq<string> {
    match m
    case Shipping => TOKEN_ENDPOINT
    case Legacy => DISCOVERY_AND_SCOPES + TOKEN_ENDPOINT + ["auth/pre-registration"]
    case Modern => DISCOVERY_AND_SCOPES + TOKEN_ENDPOINT + ["auth/pre-registration"] + MODERN_ONLY
  }

  function Pinned(): Upstream {
    Upstream("modelcontextprotocol/conformance", "49103de6ed70804e940637bf3e9e29e4a3f54e64",
             map m: Mode | m in {Shipping, Legacy, Modern} :: NonAuthScenarios(m),
             map m: Mode | m in {Shipping, Legacy, Modern} :: AuthScenarios(m))
  }

  predicate AllNamed(names: seq<string>) {
    names == [] || (|names[0]| > 0 && AllNamed(names[1..]))
  }

  lemma {:induction false} AllNamedMeaning(names: seq<string>)
    requires AllNamed(names)
    ensures forall s :: s in names ==> s != ""
  {
    if names != [] {
      AllNamedMeaning(names[1..]);
      assert names == [names[0]] + names[1..];
    }
  }

  lemma NonAuthNamed(m: Mode, s: string)
    requires s in NonAuthScenarios(m)
    ensures s != ""
  {
    assert AllNamed(NonAuthScenarios(Shipping));
    assert AllNamed(NonAuthScenarios(Legacy));
    assert AllNamed(NonAuthScenarios(Modern));
    AllNamedMeaning(NonAuthScenarios(m));
  }

  lemma {:induction false} AllNamedConcat(a: seq<string>, b: seq<string>)
    requires AllNamed(a) && AllNamed(b)
    ensures AllNamed(a + b)
  {
    if a == [] {
      assert a + b == b;
    } else {
      AllNamedConcat(a[1..], b);
      assert (a + b)[1..] == a[1..] + b;
    }
  }

  lemma TokenEndpointNamed()
    ensures AllNamed(TOKEN_ENDPOINT)
  {
  }

  lemma DiscoveryNamed()
    ensures AllNamed(DISCOVERY_AND_SCOPES)
  {
  }

  lemma ModernOnlyNamed()
    ensures AllNamed(MODERN_ONLY)
  {
  }

  lemma SharedNamed()
    ensures AllNamed(DISCOVERY_AND_SCOPES + TOKEN_ENDPOINT + ["auth/pre-registration"])
  {
    TokenEndpointNamed();
    DiscoveryNamed();
    AllNamedConcat(DISCOVERY_AND_SCOPES, TOKEN_ENDPOINT);
    AllNamedConcat(DISCOVERY_AND_SCOPES + TOKEN_ENDPOINT, ["auth/pre-registration"]);
  }

  lemma AuthNamed(m: Mode, s: string)
    requires s in AuthScenarios(m)
    ensures s != ""
  {
    match m
    case Shipping =>
      TokenEndpointNamed();
      AllNamedMeaning(TOKEN_ENDPOINT);
    case Legacy =>
      SharedNamed();
      AllNamedMeaning(AuthScenarios(Legacy));
    case Modern =>
      SharedNamed();
      ModernOnlyNamed();
      AllNamedConcat(DISCOVERY_AND_SCOPES + TOKEN_ENDPOINT + ["auth/pre-registration"], MODERN_ONLY);
      AllNamedMeaning(AuthScenarios(Modern));
  }

  /** The pinned catalogs meet what the laws about complete runs assume of an upstream release. */
  lemma PinnedIsValid()
    ensures Pinned().Valid()
  {
    var u := Pinned();
    forall m: Mode
      ensures m in u.nonAuth && m in u.auth && u.nonAuth[m] != []
    {
      assert m == Shipping || m == Legacy || m == Modern;
    }
    forall m: Mode, s: string | s in u.nonAuth[m] || s in u.auth[m]
      ensures s != ""
    {
      if s in u.nonAuth[m] { NonAuthNamed(m, s); } else { AuthNamed(m, s); }
    }
  }

  /** The default run of the pinned release is accepted exactly when the version check succeeded. */
  lemma PinnedDefaultRun(w: World, automaticAuth: bool)
    requires w.Valid()
    ensures Pinned().Valid() && Starts(Pinned(), DefaultRequest(automaticAuth), w)
    ensures Read(Pinned().Suite(), ProducedReport(Pinned(), DefaultRequest(automaticAuth), w)).problems == [] <==>
            w.versionOk
  {
    PinnedIsValid();
    DefaultRunIsAccepted(Pinned(), w, automaticAuth);
  }
}
