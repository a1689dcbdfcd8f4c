/** The per-tenant client configuration: a Secret laid over the driver's own settings. */
module Tenant {
  import opened Results
  import opened Text

  datatype Credentials = Credentials(accessKeyID: string, accessSecretKey: string)

  datatype Tls = Tls(ssl: bool, caCertPath: string, skipVerify: bool)

  datatype ClientConfig = ClientConfig(
    endpoint: string,
    s3Endpoint: string,
    region: string,
    svmUUID: string,
    admin: Credentials,
    tls: Tls,
    s3UseSSL: bool,
    caCertPEM: string)

  /**
   The keys a tenant Secret is read for, ONTAP_MGMT_ENDPOINT to ONTAP_S3_USE_SSL. A Secret may hold others, which
   nothing looks at.
   */
  datatype Key =
    | MgmtEndpoint | MgmtSvmUuid | MgmtUsername | MgmtPassword
    | MgmtUseSsl | MgmtSkipVerify | MgmtCaCertPath | MgmtCaCert
    | S3Region | S3Endpoint | S3UseSsl

  type Secret = map<Key, string>

  const IDENTITY_KEYS: set<Key> := {MgmtEndpoint, MgmtSvmUuid, MgmtUsername, MgmtPassword}

  datatype OverlayError = Missing(keys: seq<Key>) | InvalidBoolean(key: Key, raw: string)

  /** A key counts only with a non-empty value. */
  function Get(secret: Secret, key: Key): Option<string> {
    if key in secret && secret[key] != "" then Some(secret[key]) else None
  }

  function GetBool(secret: Secret, key: Key): Result<Option<bool>, OverlayError> {
    match Get(secret, key)
    case None => Success(None)
    case Some(raw) =>
      match ParseBool(raw)
      case None => Failure(InvalidBoolean(key, raw))
      case Some(b) => Success(Some(b))
  }

  function Or<T>(value: Option<T>, fallback: T): T {
    match value case Some(v) => v case None => fallback
  }

  predicate Present(secret: Secret, key: Key) {
    Get(secret, key).Some?
  }

  function MissingKeys(secret: Secret): set<Key> {
    set key | key in IDENTITY_KEYS && !Present(secret, key)
  }

  /** The first boolean key whose value is not a boolean, in the order they are read. */
  function BadBoolean(secret: Secret): Option<Key> {
    if GetBool(secret, MgmtUseSsl).Failure? then Some(MgmtUseSsl)
    else if GetBool(secret, MgmtSkipVerify).Failure? then Some(MgmtSkipVerify)
    else if GetBool(secret, S3UseSsl).Failure? then Some(S3UseSsl)
    else None
  }

  function BoolOr(secret: Secret, key: Key, fallback: bool): bool {
    match GetBool(secret, key)
    case Success(b) => Or(b, fallback)
    case Failure(_) => fallback
  }

  /** Every optional field is the Secret's value or else what the configuration holds. */
  function WithOptions(cfg: ClientConfig, secret: Secret): ClientConfig {
    cfg.(
      tls := Tls(BoolOr(secret, MgmtUseSsl, cfg.tls.ssl),
                 Or(Get(secret, MgmtCaCertPath), cfg.tls.caCertPath),
                 BoolOr(secret, MgmtSkipVerify, cfg.tls.skipVerify)),
      caCertPEM := Or(Get(secret, MgmtCaCert), cfg.caCertPEM),
      region := Or(Get(secret, S3Region), cfg.region),
      s3Endpoint := Or(Get(secret, S3Endpoint), cfg.s3Endpoint),
      s3UseSSL := BoolOr(secret, S3UseSsl, cfg.s3UseSSL))
  }

  /** Identity comes from the Secret alone; every other field is the Secret's value or else the driver's own. */
  function Overlaid(defaults: ClientConfig, secret: Secret): ClientConfig
    requires MissingKeys(secret) == {}
  {
    assert forall key | key in IDENTITY_KEYS :: key !in MissingKeys(secret);
    WithOptions(
      defaults.(
        endpoint := secret[MgmtEndpoint],
        svmUUID := secret[MgmtSvmUuid],
        admin := Credentials(secret[MgmtUsername], secret[MgmtPassword])),
      secret)
  }

  /** What tenantConfig returns, up to the order in which it lists missing keys. */
  predicate Overlays(defaults: ClientConfig, secret: Secret, res: Result<ClientConfig, OverlayError>) {
    if MissingKeys(secret) != {} then
      && res.Failure? && res.error.Missing?
      && KeySet(res.error.keys) == MissingKeys(secret)
      && NoRepeats(res.error.keys)
    else match BadBoolean(secret)
      case Some(key) => key in secret && res == Failure(InvalidBoolean(key, secret[key]))
      case None => res == Success(Overlaid(defaults, secret))
  }

  predicate NoRepeats(keys: seq<Key>) {
    forall i, j | 0 <= i < j < |keys| :: keys[i] != keys[j]
  }

  /** One way of walking the map of identity keys. */
  predicate Walk(order: seq<Key>) {
    KeySet(order) == IDENTITY_KEYS && NoRepeats(order)
  }

  /** The field an identity key is written to. */
  function WithIdentity(cfg: ClientConfig, key: Key, v: string): ClientConfig {
    match key
    case MgmtEndpoint => cfg.(endpoint := v)
    case MgmtSvmUuid => cfg.(svmUUID := v)
    case MgmtUsername => cfg.(admin := cfg.admin.(accessKeyID := v))
    case MgmtPassword => cfg.(admin := cfg.admin.(accessSecretKey := v))
    case _ => cfg
  }

  /** The value of an identity field. */
  function Identity(cfg: ClientConfig, key: Key): string
    requires key in IDENTITY_KEYS
  {
    match key
    case MgmtEndpoint => cfg.endpoint
    case MgmtSvmUuid => cfg.svmUUID
    case MgmtUsername => cfg.admin.accessKeyID
    case MgmtPassword => cfg.admin.accessSecretKey
  }

  /** Configurations that agree on everything but identity. */
  predicate SameButIdentity(cfg: ClientConfig, cfg': ClientConfig) {
    cfg' == cfg.(endpoint := cfg'.endpoint, svmUUID := cfg'.svmUUID, admin := cfg'.admin)
  }

  /** The visited identity fields hold the Secret's values where it has any, all other fields the defaults. */
  predicate Read(cfg: ClientConfig, defaults: ClientConfig, secret: Secret, visited: set<Key>) {
    && SameButIdentity(defaults, cfg)
    && forall key | key in IDENTITY_KEYS ::
         Identity(cfg, key)
         == if key in visited then Or(Get(secret, key), Identity(defaults, key)) else Identity(defaults, key)
  }

  lemma ReadOne(cfg: ClientConfig, defaults: ClientConfig, secret: Secret, visited: set<Key>, key: Key)
    requires Read(cfg, defaults, secret, visited) && key in IDENTITY_KEYS && key !in visited
    ensures Get(secret, key).Some? ==>
              Read(WithIdentity(cfg, key, Get(secret, key).value), defaults, secret, visited + {key})
    ensures Get(secret, key).None? ==> Read(cfg, defaults, secret, visited + {key})
  {
    if Get(secret, key).Some? {
      var cfg' := WithIdentity(cfg, key, Get(secret, key).value);
      assert Identity(cfg', key) == Get(secret, key).value;
      assert forall other | other in IDENTITY_KEYS && other != key :: Identity(cfg', other) == Identity(cfg, other);
    }
  }

  function KeySet(keys: seq<Key>): set<Key> {
    set key | key in keys
  }

  lemma VisitNext(order: seq<Key>, i: nat)
    requires i < |order| && NoRepeats(order)
    ensures order[i] in KeySet(order) && order[i] !in KeySet(order[..i])
    ensures KeySet(order[..i + 1]) == KeySet(order[..i]) + {order[i]}
  {
    assert order[..i + 1] == order[..i] + [order[i]];
  }

  lemma AddedMissing(missing: seq<Key>, key: Key)
    requires NoRepeats(missing) && key !in KeySet(missing)
    ensures NoRepeats(missing + [key]) && KeySet(missing + [key]) == KeySet(missing) + {key}
  {
    assert forall i | 0 <= i < |missing| :: missing[i] in KeySet(missing);
  }

  /** The identity keys, copied in whatever order the map yields them. */
  method ReadIdentity(defaults: ClientConfig, secret: Secret, order: seq<Key>)
    returns (cfg: ClientConfig, missing: seq<Key>)
    requires Walk(order)
    ensures Read(cfg, defaults, secret, IDENTITY_KEYS)
    ensures KeySet(missing) == MissingKeys(secret) && NoRepeats(missing)
  {
    cfg := defaults;
    missing := [];
    ghost var visited: set<Key> := {};
    var i := 0;
    while i < |order|
      invariant 0 <= i <= |order| && visited == KeySet(order[..i])
      invariant Read(cfg, defaults, secret, visited)
      invariant KeySet(missing) == visited * MissingKeys(secret) && NoRepeats(missing)
    {
      var key := order[i];
      VisitNext(order, i);
      ReadOne(cfg, defaults, secret, visited, key);
      var v := Get(secret, key);
      if v.Some? {
        cfg := WithIdentity(cfg, key, v.value);
      } else {
        AddedMissing(missing, key);
        missing := missing + [key];
      }
      visited := visited + {key};
      i := i + 1;
    }
    assert order[..i] == order;
  }

  method ReadTls(cfg: ClientConfig, secret: Secret) returns (res: Result<ClientConfig, OverlayError>)
    ensures match GetBool(secret, MgmtUseSsl)
            case Failure(e) => res == Failure(e)
            case Success(ssl) =>
              match GetBool(secret, MgmtSkipVerify)
              case Failure(e) => res == Failure(e)
              case Success(skipVerify) =>
                res == Success(cfg.(tls := Tls(Or(ssl, cfg.tls.ssl),
                                               Or(Get(secret, MgmtCaCertPath), cfg.tls.caCertPath),
                                               Or(skipVerify, cfg.tls.skipVerify))))
  {
    var tls := cfg.tls;
    var useSSL := GetBool(secret, MgmtUseSsl);
    if useSSL.Failure? {
      return Failure(useSSL.error);
    } else if useSSL.value.Some? {
      tls := tls.(ssl := useSSL.value.value);
    }
    var skipVerify := GetBool(secret, MgmtSkipVerify);
    if skipVerify.Failure? {
      return Failure(skipVerify.error);
    } else if skipVerify.value.Some? {
      tls := tls.(skipVerify := skipVerify.value.value);
    }
    var caCertPath := Get(secret, MgmtCaCertPath);
    if caCertPath.Some? {
      tls := tls.(caCertPath := caCertPath.value);
    }
    return Success(cfg.(tls := tls));
  }

  /** tenantConfig. */
  method TenantConfig(defaults: ClientConfig, secret: Secret, order: seq<Key>)
    returns (res: Result<ClientConfig, OverlayError>)
    requires Walk(order)
    ensures Overlays(defaults, secret, res)
  {
    var cfg, missing := ReadIdentity(defaults, secret, order);
    if |missing| > 0 {
      assert missing[0] in KeySet(missing);
      return Failure(Missing(missing));
    }
    assert MissingKeys(secret) == {} by {
      assert missing == [];
    }
    forall key | key in IDENTITY_KEYS ensures Present(secret, key) && Identity(cfg, key) == secret[key] {
      assert key !in MissingKeys(secret);
    }

    res := ReadTls(cfg, secret);
    if res.Failure? {
      return;
    }
    res := ReadOptions(res.value, secret);
  }

  /** The optional settings behind the TLS ones. */
  method ReadOptions(cfg: ClientConfig, secret: Secret) returns (res: Result<ClientConfig, OverlayError>)
    ensures match GetBool(secret, S3UseSsl)
            case Failure(e) => res == Failure(e)
            case Success(useSSL) =>
              res == Success(cfg.(caCertPEM := Or(Get(secret, MgmtCaCert), cfg.caCertPEM),
                                  region := Or(Get(secret, S3Region), cfg.region),
                                  s3Endpoint := Or(Get(secret, S3Endpoint), cfg.s3Endpoint),
                                  s3UseSSL := Or(useSSL, cfg.s3UseSSL)))
  {
    var full := cfg;
    var caCert := Get(secret, MgmtCaCert);
    if caCert.Some? {
      full := full.(caCertPEM := caCert.value);
    }
    var region := Get(secret, S3Region);
    if region.Some? {
      full := full.(region := region.value);
    }
    var s3Endpoint := Get(secret, S3Endpoint);
    if s3Endpoint.Some? {
      full := full.(s3Endpoint := s3Endpoint.value);
    }
    var useSSL := GetBool(secret, S3UseSsl);
    if useSSL.Failure? {
      return Failure(useSSL.error);
    } else if useSSL.value.Some? {
      full := full.(s3UseSSL := useSSL.value.value);
    }
    return Success(full);
  }

  /** The order in which the map is walked shows only in the order of the missing keys. */
  lemma OrderOnlyListsMissing(defaults: ClientConfig, secret: Secret,
                              res: Result<ClientConfig, OverlayError>, res': Result<ClientConfig, OverlayError>)
    requires Overlays(defaults, secret, res) && Overlays(defaults, secret, res')
    ensures res == res' || (
              && res.Failure? && res'.Failure? && res.error.Missing? && res'.error.Missing?
              && multiset(res.error.keys) == multiset(res'.error.keys))
  {
    if MissingKeys(secret) != {} {
      NoRepeatsCounts(res.error.keys);
      NoRepeatsCounts(res'.error.keys);
      assert forall key :: key in res.error.keys <==> key in MissingKeys(secret);
      assert forall key :: key in res'.error.keys <==> key in MissingKeys(secret);
    }
  }

  lemma {:induction false} NoRepeatsCounts(keys: seq<Key>)
    requires NoRepeats(keys)
    ensures forall key :: multiset(keys)[key] == if key in keys then 1 else 0
  {
    if keys != [] {
      var init := keys[..|keys| - 1];
      assert keys == init + [keys[|keys| - 1]];
      NoRepeatsCounts(init);
    }
  }

  /** The driver's own endpoint, SVM and credentials never reach a tenant: they do not influence the result at all. */
  lemma IdentityNeverFallsBack(defaults: ClientConfig, defaults': ClientConfig, secret: Secret,
                               res: Result<ClientConfig, OverlayError>, res': Result<ClientConfig, OverlayError>)
    requires Overlays(defaults, secret, res) && Overlays(defaults', secret, res') && res.Success?
    requires SameButIdentity(defaults, defaults')
    ensures res' == res
    ensures forall key | key in IDENTITY_KEYS :: Present(secret, key) && Identity(res.value, key) == secret[key]
  {
    assert forall key | key in IDENTITY_KEYS :: key !in MissingKeys(secret);
  }

  /** The Secret gives the key a value: one that is not empty. */
  predicate Given(secret: Secret, key: Key) {
    key in secret && secret[key] != ""
  }

  /** The keys that hold booleans, in the order they are read. */
  const BOOLEAN_KEYS: seq<Key> := [MgmtUseSsl, MgmtSkipVerify, S3UseSsl]

  predicate NoBoolean(secret: Secret, key: Key) {
    Given(secret, key) && ParseBool(secret[key]) == None
  }

  /** A Secret is refused for the identity keys it does not give, or else for the first boolean that is none. */
  lemma RefusedExactly(secret: Secret)
    ensures forall key :: key in MissingKeys(secret) <==> key in IDENTITY_KEYS && !Given(secret, key)
    ensures match BadBoolean(secret)
            case None => forall i | 0 <= i < 3 :: !NoBoolean(secret, BOOLEAN_KEYS[i])
            case Some(key) => exists i | 0 <= i < 3 ::
              && key == BOOLEAN_KEYS[i] && NoBoolean(secret, key)
              && forall j | 0 <= j < i :: !NoBoolean(secret, BOOLEAN_KEYS[j])
  {
    if BadBoolean(secret) == None {
      assert !NoBoolean(secret, MgmtUseSsl) && !NoBoolean(secret, MgmtSkipVerify) && !NoBoolean(secret, S3UseSsl);
    } else {
      var key := BadBoolean(secret).value;
      var i := if key == MgmtUseSsl then 0 else if key == MgmtSkipVerify then 1 else 2;
      assert key == BOOLEAN_KEYS[i];
    }
  }

  /** An identity field: the Secret's value. */
  predicate IsGiven(field: string, secret: Secret, key: Key) {
    Given(secret, key) && secret[key] == field
  }

  /** A text field: the Secret's value if it gives one, else the driver's. */
  predicate TextField(field: string, secret: Secret, key: Key, fallback: string) {
    field == if Given(secret, key) then secret[key] else fallback
  }

  predicate BoolField(field: bool, secret: Secret, key: Key, fallback: bool) {
    if Given(secret, key) then ParseBool(secret[key]) == Some(field) else field == fallback
  }

  /** Field by field: identity is the Secret's, everything else is the Secret's where it gives a value. */
  lemma OverlaidFieldByField(defaults: ClientConfig, secret: Secret)
    requires MissingKeys(secret) == {} && BadBoolean(secret) == None
    ensures var cfg := Overlaid(defaults, secret);
            && IsGiven(cfg.endpoint, secret, MgmtEndpoint) && IsGiven(cfg.svmUUID, secret, MgmtSvmUuid)
            && IsGiven(cfg.admin.accessKeyID, secret, MgmtUsername)
            && IsGiven(cfg.admin.accessSecretKey, secret, MgmtPassword)
            && BoolField(cfg.tls.ssl, secret, MgmtUseSsl, defaults.tls.ssl)
            && BoolField(cfg.tls.skipVerify, secret, MgmtSkipVerify, defaults.tls.skipVerify)
            && BoolField(cfg.s3UseSSL, secret, S3UseSsl, defaults.s3UseSSL)
            && TextField(cfg.tls.caCertPath, secret, MgmtCaCertPath, defaults.tls.caCertPath)
            && TextField(cfg.caCertPEM, secret, MgmtCaCert, defaults.caCertPEM)
            && TextField(cfg.region, secret, S3Region, defaults.region)
            && TextField(cfg.s3Endpoint, secret, S3Endpoint, defaults.s3Endpoint)
  {
    forall key | key in IDENTITY_KEYS ensures Given(secret, key) {
      assert key !in MissingKeys(secret);
    }
  }

  lemma SameValuesOverlayAlike(defaults: ClientConfig, secret: Secret, secret': Secret,
                               res: Result<ClientConfig, OverlayError>)
    requires forall key :: Get(secret, key) == Get(secret', key)
    ensures Overlays(defaults, secret, res) ==> Overlays(defaults, secret', res)
  {
    assert MissingKeys(secret) == MissingKeys(secret');
    if MissingKeys(secret) == {} {
      assert forall key | key in IDENTITY_KEYS :: key !in MissingKeys(secret) && key !in MissingKeys(secret');
    }
  }

  /** A key with an empty value counts as one the Secret does not have. */
  lemma EmptyIsAbsent(defaults: ClientConfig, secret: Secret, key: Key, res: Result<ClientConfig, OverlayError>)
    ensures Overlays(defaults, secret[key := ""], res) <==> Overlays(defaults, secret - {key}, res)
  {
    SameValuesOverlayAlike(defaults, secret[key := ""], secret - {key}, res);
    SameValuesOverlayAlike(defaults, secret - {key}, secret[key := ""], res);
  }
}
