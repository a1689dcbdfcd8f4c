/** Which ONTAP service an RPC acts on. In multi-tenant mode every RPC reads its namespace's Secret afresh. */
module Tenancy {
  import opened Results
  import opened Text
  import opened Errors
  import opened Rpc
  import opened Tenant

  /**
   The service a client talks to: its base URL, and the storage virtual machine as it stands in every request path.
   */
  datatype BackendKey = BackendKey(baseURL: string, svm: string)

  datatype CaSource = InlinePem(pem: string) | PemFile(path: string)

  /**
   What the driver process is given: its own client and settings, and what its surroundings make of URLs and CA files.
   */
  datatype Setup = Setup(
    multiTenant: bool,
    own: BackendKey,
    defaults: ClientConfig,
    baseOf: string -> Option<string>,
    caLoads: CaSource -> bool)

  datatype LoadError = NoSecret | Overlay(error: OverlayError) | NoEndpoint | NoSvm | BadEndpoint | BadCa

  function WithScheme(endpoint: string, ssl: bool): string {
    if Contains(endpoint, "://") then endpoint else (if ssl then "https" else "http") + "://" + endpoint
  }

  /**
   The CA certificate NewFromConfig reads, if any: an inline one goes before a file, and neither is read without TLS.
   */
  function CaOf(cfg: ClientConfig): Option<CaSource> {
    if !cfg.tls.ssl then None
    else if cfg.caCertPEM != "" then Some(InlinePem(cfg.caCertPEM))
    else if cfg.tls.caCertPath != "" then Some(PemFile(cfg.tls.caCertPath))
    else None
  }

  function NewFromConfig(setup: Setup, cfg: ClientConfig): Result<BackendKey, LoadError> {
    if Trim(cfg.endpoint) == "" then Failure(NoEndpoint)
    else if Trim(cfg.svmUUID) == "" then Failure(NoSvm)
    else match setup.baseOf(WithScheme(cfg.endpoint, cfg.tls.ssl))
    case None => Failure(BadEndpoint)
    case Some(base) =>
      if CaOf(cfg).Some? && !setup.caLoads(CaOf(cfg).value) then Failure(BadCa)
      else Success(BackendKey(base, Trim(cfg.svmUUID)))
  }

  /** The Secrets named ontap-cosi-driver-credentials, by namespace. */
  type Secrets = map<string, Secret>

  const NAMESPACE_PARAM := "cosi.tenantNamespace"

  /** A Secret that a client can be built from. */
  predicate Usable(setup: Setup, secret: Secret) {
    && MissingKeys(secret) == {} && BadBoolean(secret) == None
    && NewFromConfig(setup, Overlaid(setup.defaults, secret)).Success?
  }

  /** The RPC runs on a tenant's own client. */
  predicate ForTenant(setup: Setup, params: Params) {
    setup.multiTenant && Param(params, NAMESPACE_PARAM) != ""
  }

  /** The service an RPC acts on; None when its tenant's cannot be told. */
  function Target(setup: Setup, params: Params, secrets: Secrets): Option<BackendKey> {
    var ns := Param(params, NAMESPACE_PARAM);
    if !ForTenant(setup, params) then Some(setup.own)
    else if ns in secrets && Usable(setup, secrets[ns]) then
      Some(NewFromConfig(setup, Overlaid(setup.defaults, secrets[ns])).value)
    else None
  }

  /** Load. */
  method Load(setup: Setup, secrets: Secrets, namespace: string, order: seq<Key>)
    returns (res: Result<BackendKey, LoadError>)
    requires Walk(order)
    ensures res.Success? <==> namespace in secrets && Usable(setup, secrets[namespace])
    ensures res.Success? ==> res == NewFromConfig(setup, Overlaid(setup.defaults, secrets[namespace]))
    ensures namespace !in secrets ==> res == Failure(NoSecret)
    ensures namespace in secrets && (MissingKeys(secrets[namespace]) != {} || BadBoolean(secrets[namespace]).Some?) ==>
              && res.Failure? && res.error.Overlay?
              && Overlays(setup.defaults, secrets[namespace], Failure(res.error.error))
  {
    if namespace !in secrets {
      return Failure(NoSecret);
    }
    var cfg := TenantConfig(setup.defaults, secrets[namespace], order);
    if cfg.Failure? {
      return Failure(Overlay(cfg.error));
    }
    return NewFromConfig(setup, cfg.value);
  }

  /** resolveClient. */
  method ResolveClient(setup: Setup, params: Params, secrets: Secrets, order: seq<Key>)
    returns (res: Result<BackendKey, Outcome>)
    requires Walk(order)
    ensures match Target(setup, params, secrets)
            case Some(key) => res == Success(key)
            case None => res.Failure? && res.error.Failed? && res.error.code == Unavailable
  {
    if !setup.multiTenant {
      return Success(setup.own);
    }
    var ns := if NAMESPACE_PARAM in params then params[NAMESPACE_PARAM] else "";
    if ns == "" {
      return Success(setup.own);
    }
    var client := Load(setup, secrets, ns, order);
    if client.Failure? {
      return Failure(Failed(Unavailable, Coded(Unavailable, "tenant credentials")));
    }
    return Success(client.value);
  }

  /** The driver's own identity, and other namespaces' Secrets, have no say in where a tenant's RPC goes. */
  lemma TenantDecidesItsTarget(setup: Setup, setup': Setup, params: Params, secrets: Secrets, secrets': Secrets)
    requires ForTenant(setup, params)
    requires setup' == setup.(own := setup'.own, defaults := setup'.defaults)
    requires SameButIdentity(setup.defaults, setup'.defaults)
    requires var ns := Param(params, NAMESPACE_PARAM);
             (ns in secrets <==> ns in secrets') && (ns in secrets ==> secrets[ns] == secrets'[ns])
    ensures Target(setup, params, secrets) == Target(setup', params, secrets')
    ensures Target(setup, params, secrets).Some? ==>
              var secret := secrets[Param(params, NAMESPACE_PARAM)];
              MgmtSvmUuid in secret && Target(setup, params, secrets).value.svm == Trim(secret[MgmtSvmUuid])
  {
    var ns := Param(params, NAMESPACE_PARAM);
    if ns in secrets && MissingKeys(secrets[ns]) == {} {
      assert forall key | key in IDENTITY_KEYS :: key !in MissingKeys(secrets[ns]);
      assert Overlaid(setup.defaults, secrets[ns]) == Overlaid(setup'.defaults, secrets[ns]);
    }
  }

  /** The scheme is that of the URL, or else what the SSL setting says. */
  predicate Addresses(url: string, endpoint: string, ssl: bool) {
    || (Contains(endpoint, "://") && url == endpoint)
    || (!Contains(endpoint, "://") && ssl && url == "https://" + endpoint)
    || (!Contains(endpoint, "://") && !ssl && url == "http://" + endpoint)
  }

  /**
   All calls of a tenant's RPC go to its own Secret's management endpoint, over TLS as the Secret says, or else the
   driver, and to the storage virtual machine its own Secret names.
   */
  lemma TenantReachesItsEndpoint(setup: Setup, params: Params, secrets: Secrets) returns (url: string, ssl: bool)
    requires ForTenant(setup, params) && Target(setup, params, secrets).Some?
    ensures Param(params, NAMESPACE_PARAM) in secrets
    ensures var secret := secrets[Param(params, NAMESPACE_PARAM)];
            && Given(secret, MgmtEndpoint) && Given(secret, MgmtSvmUuid)
            && BoolField(ssl, secret, MgmtUseSsl, setup.defaults.tls.ssl)
            && Addresses(url, secret[MgmtEndpoint], ssl)
            && setup.baseOf(url) == Some(Target(setup, params, secrets).value.baseURL)
            && Target(setup, params, secrets).value.svm == Trim(secret[MgmtSvmUuid])
  {
    var secret := secrets[Param(params, NAMESPACE_PARAM)];
    OverlaidFieldByField(setup.defaults, secret);
    var cfg := Overlaid(setup.defaults, secret);
    ssl := cfg.tls.ssl;
    url := WithScheme(cfg.endpoint, ssl);
  }

  /** A CA certificate is read only over TLS, an inline one rather than a file, and has to load. */
  predicate CaReady(setup: Setup, ssl: bool, pem: string, path: string) {
    || !ssl
    || (pem != "" && setup.caLoads(InlinePem(pem)))
    || (pem == "" && (path == "" || setup.caLoads(PemFile(path))))
  }

  /** Which Secrets a client can be built from: all that has to be right about one. */
  lemma UsableExactly(setup: Setup, secret: Secret, url: string, ssl: bool, pem: string, path: string)
    requires BoolField(ssl, secret, MgmtUseSsl, setup.defaults.tls.ssl)
    requires TextField(pem, secret, MgmtCaCert, setup.defaults.caCertPEM)
    requires TextField(path, secret, MgmtCaCertPath, setup.defaults.tls.caCertPath)
    requires MgmtEndpoint in secret ==> Addresses(url, secret[MgmtEndpoint], ssl)
    ensures Usable(setup, secret) <==>
              && (forall key | key in IDENTITY_KEYS :: Given(secret, key))
              && (forall i | 0 <= i < 3 :: !NoBoolean(secret, BOOLEAN_KEYS[i]))
              && Trim(secret[MgmtEndpoint]) != "" && Trim(secret[MgmtSvmUuid]) != ""
              && setup.baseOf(url).Some? && CaReady(setup, ssl, pem, path)
  {
    RefusedExactly(secret);
    assert MissingKeys(secret) == {} <==> forall key | key in IDENTITY_KEYS :: Given(secret, key);
    assert BadBoolean(secret) == None <==> forall i | 0 <= i < 3 :: !NoBoolean(secret, BOOLEAN_KEYS[i]);
    if MissingKeys(secret) == {} && BadBoolean(secret) == None {
      OverlaidFieldByField(setup.defaults, secret);
      var cfg := Overlaid(setup.defaults, secret);
      assert url == WithScheme(cfg.endpoint, cfg.tls.ssl);
    }
  }

  const S3_KEYS: set<Key> := {S3Region, S3Endpoint, S3UseSsl}

  lemma SameOtherKeys(secret: Secret, secret': Secret, key: Key)
    requires secret - S3_KEYS == secret' - S3_KEYS && key !in S3_KEYS
    ensures key in secret <==> key in secret'
    ensures key in secret ==> secret[key] == secret'[key]
  {
    assert key in secret - S3_KEYS <==> key in secret;
    assert key in secret' - S3_KEYS <==> key in secret';
    assert key in secret ==> (secret - S3_KEYS)[key] == secret[key];
    assert key in secret' ==> (secret' - S3_KEYS)[key] == secret'[key];
  }

  /** What such Secrets configure differs in the three S3 settings at most. */
  lemma S3KeysOnlySetS3(defaults: ClientConfig, secret: Secret, secret': Secret)
    requires secret - S3_KEYS == secret' - S3_KEYS
    ensures MissingKeys(secret) == MissingKeys(secret')
    ensures forall key | key !in S3_KEYS :: GetBool(secret, key) == GetBool(secret', key)
    ensures MissingKeys(secret) == {} ==>
              var cfg, cfg' := Overlaid(defaults, secret), Overlaid(defaults, secret');
              cfg' == cfg.(region := cfg'.region, s3Endpoint := cfg'.s3Endpoint, s3UseSSL := cfg'.s3UseSSL)
  {
    forall key | key !in S3_KEYS ensures Get(secret, key) == Get(secret', key) {
      SameOtherKeys(secret, secret', key);
    }
    assert MissingKeys(secret) == MissingKeys(secret');
    if MissingKeys(secret) == {} {
      assert forall key | key in IDENTITY_KEYS :: key !in MissingKeys(secret) && key !in MissingKeys(secret');
    }
  }

  lemma S3SettingsDoNotSteer(setup: Setup, cfg: ClientConfig, cfg': ClientConfig)
    requires cfg' == cfg.(region := cfg'.region, s3Endpoint := cfg'.s3Endpoint, s3UseSSL := cfg'.s3UseSSL)
    ensures NewFromConfig(setup, cfg) == NewFromConfig(setup, cfg')
  {
  }

  /** What consumers are told of the S3 endpoint has no say in where the calls go. */
  lemma S3KeysDoNotSteer(setup: Setup, params: Params, secrets: Secrets, secrets': Secrets)
    requires var ns := Param(params, NAMESPACE_PARAM);
             && ns in secrets && ns in secrets' && secrets[ns] - S3_KEYS == secrets'[ns] - S3_KEYS
             && !NoBoolean(secrets[ns], S3UseSsl) && !NoBoolean(secrets'[ns], S3UseSsl)
    ensures Target(setup, params, secrets) == Target(setup, params, secrets')
  {
    var secret, secret' := secrets[Param(params, NAMESPACE_PARAM)], secrets'[Param(params, NAMESPACE_PARAM)];
    S3KeysOnlySetS3(setup.defaults, secret, secret');
    if MissingKeys(secret) == {} {
      S3SettingsDoNotSteer(setup, Overlaid(setup.defaults, secret), Overlaid(setup.defaults, secret'));
    }
  }

  /** Outside multi-tenant mode, and without a namespace, RPCs run on the driver's own service, whatever Secrets say. */
  lemma OwnServiceOtherwise(setup: Setup, params: Params, secrets: Secrets)
    requires !setup.multiTenant || "cosi.tenantNamespace" !in params || params["cosi.tenantNamespace"] == ""
    ensures Target(setup, params, secrets) == Some(setup.own)
  {
  }
}
