/**
  Reconciling and deleting the Kubernetes objects of a pipeline
  (crates/etl-api/src/k8s/core.rs, crates/etl-api/src/k8s/http.rs,
  crates/etl-api/src/k8s/base.rs). The cluster is a set of maps from object name to
  object; each API request is one step and may be the last one that succeeds.
*/
module K8sResources {
  import opened Wrappers
  import opened K8sNames

  datatype Environment = Prod | Staging | Dev

  /** The pod's environment variables. */
  datatype Variable =
    | AppEnvironment | AppVersion | RustLog | RustBacktrace
    | SentryDsn | SupabaseApiKey | ConfigCatSdkKey
    | PgPassword | BigQueryServiceAccountKey
    | IcebergCatalogToken | IcebergS3AccessKeyId | IcebergS3SecretAccessKey
    | ClickHousePassword | DucklakeS3AccessKeyId | DucklakeS3SecretAccessKey
    | MaintenanceName | MaintenanceNamespace | MinInlinedBytes | MinActiveDataFiles

  datatype EnvVar =
    | Plain(name: Variable, value: string)
    | FromSecret(name: Variable, secret: string, key: string, optional: bool)

  datatype StatefulSet = StatefulSet(image: string, env: seq<EnvVar>, configMap: string)

  /** Names a maintenance resource hands to its jobs. */
  datatype Maintenance = Maintenance(configMap: string, postgresSecret: string, ducklakeSecret: string)

  datatype ClusterState = ClusterState(
    secrets: map<string, map<string, string>>,
    configMaps: map<string, map<string, string>>,
    statefulSets: map<string, StatefulSet>,
    maintenance: map<string, Maintenance>
  )

  datatype MaintenanceMode = Disabled | Kubernetes | Postgres

  datatype DestinationConfig =
    | BigQuery(serviceAccountKey: string)
    | IcebergRest
    | IcebergSupabase(catalogToken: string, s3AccessKeyId: string, s3SecretAccessKey: string)
    | ClickHouse(password: Option<string>)
    | Ducklake(s3KeyId: Option<string>, s3Secret: Option<string>, mode: MaintenanceMode)

  datatype DestinationType =
    | BigQueryType
    | IcebergType
    | ClickHouseType(passwordSecretRequired: bool)
    | DucklakeType

  function TypeOf(config: DestinationConfig): DestinationType {
    match config
    case BigQuery(_) => BigQueryType
    case IcebergRest => IcebergType
    case IcebergSupabase(_, _, _) => IcebergType
    case ClickHouse(password) => ClickHouseType(password.Some?)
    case Ducklake(_, _, _) => DucklakeType
  }

  /** What the API knows about a pipeline when it reconciles it. */
  datatype Pipeline = Pipeline(
    names: ObjectNames,
    environment: Environment,
    image: string,
    logLevel: string,
    postgresPassword: Option<string>,
    destination: DestinationConfig,
    replicatorConfig: string,
    minInlinedBytes: string,
    minActiveDataFiles: string
  )

  /** The maintenance resource is wanted for DuckLake in Kubernetes mode only. */
  predicate WantsMaintenance(p: Pipeline) {
    p.destination.Ducklake? && p.destination.mode.Kubernetes?
  }

  datatype Op =
    | PutSecret(name: string, data: map<string, string>)
    | DropSecret(name: string)
    | PutConfigMap(name: string, files: map<string, string>)
    | DropConfigMap(name: string)
    | PutStatefulSet(name: string, spec: StatefulSet)
    | DropStatefulSet(name: string)
    | PutMaintenance(name: string, refs: Maintenance)
    | DropMaintenance(name: string)

  /** One request. Deleting an object that does not exist is no error. */
  function Apply(st: ClusterState, op: Op): ClusterState {
    match op
    case PutSecret(name, data) => st.(secrets := st.secrets[name := data])
    case DropSecret(name) => st.(secrets := st.secrets - {name})
    case PutConfigMap(name, files) => st.(configMaps := st.configMaps[name := files])
    case DropConfigMap(name) => st.(configMaps := st.configMaps - {name})
    case PutStatefulSet(name, spec) => st.(statefulSets := st.statefulSets[name := spec])
    case DropStatefulSet(name) => st.(statefulSets := st.statefulSets - {name})
    case PutMaintenance(name, refs) => st.(maintenance := st.maintenance[name := refs])
    case DropMaintenance(name) => st.(maintenance := st.maintenance - {name})
  }

  function Run(st: ClusterState, ops: seq<Op>): ClusterState
    decreases |ops|
  {
    if ops == [] then st else Run(Apply(st, ops[0]), ops[1..])
  }

  lemma {:induction false} RunConcat(st: ClusterState, a: seq<Op>, b: seq<Op>)
    ensures Run(st, a + b) == Run(Run(st, a), b)
    decreases |a|
  {
    if a == [] {
      assert a + b == b;
    } else {
      assert (a + b)[1..] == a[1..] + b;
      RunConcat(Apply(st, a[0]), a[1..], b);
    }
  }

  /** `ops` were issued in order until they were done or the budget of requests ran out. */
  ghost predicate Ran(before: ClusterState, after: ClusterState, ops: seq<Op>, had: nat, left: nat, ok: bool) {
    var n := if had < |ops| then had else |ops|;
    after == Run(before, ops[..n]) && left == had - n && ok == (|ops| <= had)
  }

  lemma RanThen(a: ClusterState, b: ClusterState, c: ClusterState, x: seq<Op>, y: seq<Op>, n0: nat, n1: nat, n2: nat, ok: bool)
    requires Ran(a, b, x, n0, n1, true) && Ran(b, c, y, n1, n2, ok)
    ensures Ran(a, c, x + y, n0, n2, ok)
  {
    var k := if n1 < |y| then n1 else |y|;
    assert x[..|x|] == x;
    assert (x + y)[..|x| + k] == x + y[..k];
    RunConcat(a, x, y[..k]);
  }

  lemma RanStop(a: ClusterState, b: ClusterState, x: seq<Op>, y: seq<Op>, n0: nat, n1: nat)
    requires Ran(a, b, x, n0, n1, false)
    ensures Ran(a, b, x + y, n0, n1, false)
  {
    assert (x + y)[..n0] == x[..n0];
  }

  function Secret(names: ObjectNames, k: SecretKind, data: map<string, string>): Op {
    PutSecret(names.Secret(k), data)
  }

  /** Requests of `create_or_update_dynamic_replicator_secrets` for the secrets built from the configs. */
  function SecretOps(p: Pipeline): seq<Op> {
    var postgres := Secret(p.names, PostgresSecret, map["password" := p.postgresPassword.GetOr("")]);
    match p.destination
    case BigQuery(key) =>
      [postgres, Secret(p.names, BigQuerySecret, map["service-account-key" := key])]
    case IcebergRest => []
    case IcebergSupabase(token, id, secret) =>
      [postgres, Secret(p.names, IcebergSecret,
                        map["catalog-token" := token, "s3-access-key-id" := id, "s3-secret-access-key" := secret])]
    case ClickHouse(password) =>
      [postgres, if password.Some? then Secret(p.names, ClickHouseSecret, map["clickhouse-password" := password.value])
                 else DropSecret(p.names.Secret(ClickHouseSecret))]
    case Ducklake(id, secret, _) =>
      [postgres, if id.Some? && secret.Some?
                 then Secret(p.names, DucklakeSecret,
                             map["s3-access-key-id" := id.value, "s3-secret-access-key" := secret.value])
                 else DropSecret(p.names.Secret(DucklakeSecret))]
  }

  function EnvironmentName(e: Environment): string {
    match e case Prod => "prod" case Staging => "staging" case Dev => "dev"
  }

  /** `base.json` is empty; everything is in the environment's file. */
  function ConfigOps(p: Pipeline): seq<Op> {
    [PutConfigMap(p.names.configMap,
                  map["base.json" := "{}", EnvironmentName(p.environment) + ".json" := p.replicatorConfig])]
  }

  function MaintenanceOps(p: Pipeline): seq<Op> {
    if WantsMaintenance(p) then
      [PutMaintenance(p.names.prefix, Maintenance(p.names.configMap, p.names.Secret(PostgresSecret),
                                            p.names.Secret(DucklakeSecret)))]
    else [DropMaintenance(p.names.prefix)]
  }

  function PostgresVar(names: ObjectNames): EnvVar {
    FromSecret(PgPassword, names.Secret(PostgresSecret), "password", false)
  }

  /** Environment variables that depend on the deployment environment. */
  function BaseEnv(p: Pipeline): seq<EnvVar> {
    [Plain(AppEnvironment, EnvironmentName(p.environment)), Plain(AppVersion, p.image), Plain(RustLog, p.logLevel)]
    + (if p.environment.Prod? then [] else [Plain(RustBacktrace, "1")])
    + (if p.environment.Dev? then [] else
         [FromSecret(SentryDsn, "replicator-sentry-dsn", "dsn", true),
          FromSecret(SupabaseApiKey, "supabase-api-key", "key", true),
          FromSecret(ConfigCatSdkKey, "replicator-configcat-sdk-key", "key", true)])
  }

  /** Environment variables that depend on the destination type. */
  function DestinationEnv(names: ObjectNames, t: DestinationType): seq<EnvVar> {
    [PostgresVar(names)] +
    match t
    case BigQueryType =>
      [FromSecret(BigQueryServiceAccountKey, names.Secret(BigQuerySecret), "service-account-key", false)]
    case IcebergType =>
      var secret := names.Secret(IcebergSecret);
      [FromSecret(IcebergCatalogToken, secret, "catalog-token", false),
       FromSecret(IcebergS3AccessKeyId, secret, "s3-access-key-id", false),
       FromSecret(IcebergS3SecretAccessKey, secret, "s3-secret-access-key", false)]
    case ClickHouseType(required) =>
      if required then
        [FromSecret(ClickHousePassword, names.Secret(ClickHouseSecret), "clickhouse-password", false)]
      else []
    case DucklakeType =>
      var secret := names.Secret(DucklakeSecret);
      [FromSecret(DucklakeS3AccessKeyId, secret, "s3-access-key-id", true),
       FromSecret(DucklakeS3SecretAccessKey, secret, "s3-secret-access-key", true)]
  }

  function MaintenanceEnv(p: Pipeline): seq<EnvVar> {
    if !WantsMaintenance(p) then [] else
      [Plain(MaintenanceName, p.names.prefix),
       Plain(MaintenanceNamespace, "etl-data-plane"),
       Plain(MinInlinedBytes, p.minInlinedBytes),
       Plain(MinActiveDataFiles, p.minActiveDataFiles)]
  }

  function ContainerEnv(p: Pipeline): seq<EnvVar> {
    BaseEnv(p) + DestinationEnv(p.names, TypeOf(p.destination)) + MaintenanceEnv(p)
  }

  // The pod's secret references.

  predicate Resolves(st: ClusterState, v: EnvVar) {
    v.FromSecret? && !v.optional ==> v.secret in st.secrets && v.key in st.secrets[v.secret]
  }

  /** Every required secret reference of a pod environment exists, with its key. */
  ghost predicate RefsOk(st: ClusterState, env: seq<EnvVar>) {
    forall v :: v in env ==> Resolves(st, v)
  }

  function KeysOf(k: SecretKind): set<string> {
    match k
    case PostgresSecret => {"password"}
    case BigQuerySecret => {"service-account-key"}
    case IcebergSecret => {"catalog-token", "s3-access-key-id", "s3-secret-access-key"}
    case ClickHouseSecret => {"clickhouse-password"}
    case DucklakeSecret => {"s3-access-key-id", "s3-secret-access-key"}
  }

  /** The secret a destination type requires besides the source password. */
  function RequiredSecret(t: DestinationType): Option<SecretKind> {
    match t
    case BigQueryType => Some(BigQuerySecret)
    case IcebergType => Some(IcebergSecret)
    case ClickHouseType(required) => if required then Some(ClickHouseSecret) else None
    case DucklakeType => None
  }

  predicate HasKeys(st: ClusterState, names: ObjectNames, k: SecretKind) {
    names.Secret(k) in st.secrets && KeysOf(k) <= st.secrets[names.Secret(k)].Keys
  }

  predicate HasRequired(st: ClusterState, names: ObjectNames, t: DestinationType) {
    HasKeys(st, names, PostgresSecret) && (RequiredSecret(t).Some? ==> HasKeys(st, names, RequiredSecret(t).value))
  }

  /** Only the destination part of the environment holds required references. */
  lemma RequiredRefs(st: ClusterState, p: Pipeline)
    ensures RefsOk(st, ContainerEnv(p)) <==> RefsOk(st, DestinationEnv(p.names, TypeOf(p.destination)))
  {
  }

  /** The environment built variable by variable requires what this table says. */
  lemma RefsAreRequired(st: ClusterState, p: Pipeline)
    ensures RefsOk(st, ContainerEnv(p)) <==> HasRequired(st, p.names, TypeOf(p.destination))
  {
    RequiredRefs(st, p);
    var t := TypeOf(p.destination);
    var env := DestinationEnv(p.names, t);
    assert env[0] == PostgresVar(p.names);
    if RefsOk(st, env) {
      assert Resolves(st, env[0]);
      if t.BigQueryType? || (t.ClickHouseType? && t.passwordSecretRequired) { assert Resolves(st, env[1]); }
      if t.IcebergType? { assert Resolves(st, env[1]) && Resolves(st, env[2]) && Resolves(st, env[3]); }
    }
  }

  /** The legacy set goes first, then the current one is applied. */
  function StatefulSetOps(p: Pipeline): seq<Op> {
    [DropStatefulSet(p.names.Set(LegacyName)),
     PutStatefulSet(p.names.Set(CurrentName), StatefulSet(p.image, ContainerEnv(p), p.names.configMap))]
  }

  function ReconcileOps(p: Pipeline): seq<Op> {
    SecretOps(p) + (ConfigOps(p) + (MaintenanceOps(p) + StatefulSetOps(p)))
  }

  function DeleteSecretOps(names: ObjectNames): seq<Op> {
    [DropSecret(names.Secret(PostgresSecret)), DropSecret(names.Secret(BigQuerySecret)),
     DropSecret(names.Secret(ClickHouseSecret)), DropSecret(names.Secret(IcebergSecret)),
     DropSecret(names.Secret(DucklakeSecret))]
  }

  function DeleteStatefulSetOps(names: ObjectNames): seq<Op> {
    [DropStatefulSet(names.Set(CurrentName)), DropStatefulSet(names.Set(LegacyName))]
  }

  function DeleteOps(names: ObjectNames): seq<Op> {
    [DropMaintenance(names.prefix)]
    + (DeleteSecretOps(names) + ([DropConfigMap(names.configMap)] + DeleteStatefulSetOps(names)))
  }

  /** The API server as the client sees it; `calls` more requests will succeed. */
  class Cluster {
    var secrets: map<string, map<string, string>>
    var configMaps: map<string, map<string, string>>
    var statefulSets: map<string, StatefulSet>
    var maintenance: map<string, Maintenance>
    var calls: nat

    ghost function Value(): ClusterState
      reads this
    {
      ClusterState(secrets, configMaps, statefulSets, maintenance)
    }

    method Request(op: Op) returns (ok: bool)
      modifies this
      ensures Ran(old(Value()), Value(), [op], old(calls), calls, ok)
    {
      ok := calls > 0;
      if ok {
        calls := calls - 1;
        match op {
          case PutSecret(name, data) => secrets := secrets[name := data];
          case DropSecret(name) => secrets := secrets - {name};
          case PutConfigMap(name, files) => configMaps := configMaps[name := files];
          case DropConfigMap(name) => configMaps := configMaps - {name};
          case PutStatefulSet(name, spec) => statefulSets := statefulSets[name := spec];
          case DropStatefulSet(name) => statefulSets := statefulSets - {name};
          case PutMaintenance(name, refs) => maintenance := maintenance[name := refs];
          case DropMaintenance(name) => maintenance := maintenance - {name};
        }
        assert [op][..1] == [op] && [op][1..] == [];
        assert Run(old(Value()), [op]) == Run(Apply(old(Value()), op), []);
        assert Value() == Apply(old(Value()), op);
      } else {
        assert [op][..0] == [];
      }
    }

    /** Issues requests one by one, stopping at the first that fails. */
    method RequestAll(ops: seq<Op>) returns (ok: bool)
      modifies this
      ensures Ran(old(Value()), Value(), ops, old(calls), calls, ok)
    {
      ok := true;
      var i := 0;
      assert ops[..0] == [];
      while i < |ops|
        invariant 0 <= i <= |ops|
        invariant ok && Ran(old(Value()), Value(), ops[..i], old(calls), calls, true)
      {
        ghost var mid, left := Value(), calls;
        ok := Request(ops[i]);
        assert ops[..i] + [ops[i]] == ops[..i + 1];
        RanThen(old(Value()), mid, Value(), ops[..i], [ops[i]], old(calls), left, calls, ok);
        if !ok {
          assert ops[..i + 1] + ops[i + 1..] == ops;
          RanStop(old(Value()), Value(), ops[..i + 1], ops[i + 1..], old(calls), calls);
          return;
        }
        i := i + 1;
      }
      assert ops[..|ops|] == ops;
    }

    /** `create_or_update_dynamic_replicator_secrets`. */
    method CreateOrUpdateSecrets(p: Pipeline) returns (ok: bool)
      modifies this
      ensures Ran(old(Value()), Value(), SecretOps(p), old(calls), calls, ok)
    {
      if p.destination.IcebergRest? {
        ok := true;
        assert SecretOps(p) == [] && SecretOps(p)[..0] == [];
        return;
      }
      var postgres := Secret(p.names, PostgresSecret, map["password" := p.postgresPassword.GetOr("")]);
      var second;
      match p.destination {
        case BigQuery(key) =>
          second := Secret(p.names, BigQuerySecret, map["service-account-key" := key]);
        case IcebergSupabase(token, id, secret) =>
          second := Secret(p.names, IcebergSecret,
                           map["catalog-token" := token, "s3-access-key-id" := id, "s3-secret-access-key" := secret]);
        case ClickHouse(password) =>
          if password.Some? {
            second := Secret(p.names, ClickHouseSecret, map["clickhouse-password" := password.value]);
          } else {
            second := DropSecret(p.names.Secret(ClickHouseSecret));
          }
        case Ducklake(id, secret, _) =>
          if id.Some? && secret.Some? {
            second := Secret(p.names, DucklakeSecret,
                             map["s3-access-key-id" := id.value, "s3-secret-access-key" := secret.value]);
          } else {
            second := DropSecret(p.names.Secret(DucklakeSecret));
          }
      }
      ok := RequestAll([postgres, second]);
    }

    /** `create_or_update_pipeline_resources_in_k8s`. */
    method Reconcile(p: Pipeline) returns (ok: bool)
      modifies this
      ensures Ran(old(Value()), Value(), ReconcileOps(p), old(calls), calls, ok)
    {
      ghost var had := calls;
      ok := CreateOrUpdateSecrets(p);
      if !ok {
        RanStop(old(Value()), Value(), SecretOps(p), ConfigOps(p) + (MaintenanceOps(p) + StatefulSetOps(p)), had, calls);
        return;
      }
      ghost var v1, n1 := Value(), calls;
      ok := RequestAll(ConfigOps(p));
      if !ok {
        RanStop(v1, Value(), ConfigOps(p), MaintenanceOps(p) + StatefulSetOps(p), n1, calls);
        RanThen(old(Value()), v1, Value(), SecretOps(p), ConfigOps(p) + (MaintenanceOps(p) + StatefulSetOps(p)), had, n1, calls, false);
        return;
      }
      ghost var v2, n2 := Value(), calls;
      ok := RequestAll(MaintenanceOps(p));
      if !ok {
        RanStop(v2, Value(), MaintenanceOps(p), StatefulSetOps(p), n2, calls);
      } else {
        ghost var v3, n3 := Value(), calls;
        var env := CreateContainerEnvironment(p);
        ok := RequestAll([DropStatefulSet(p.names.Set(LegacyName)),
                          PutStatefulSet(p.names.Set(CurrentName),
                                         StatefulSet(p.image, env, p.names.configMap))]);
        RanThen(v2, v3, Value(), MaintenanceOps(p), StatefulSetOps(p), n2, n3, calls, ok);
      }
      RanThen(v1, v2, Value(), ConfigOps(p), MaintenanceOps(p) + StatefulSetOps(p), n1, n2, calls, ok);
      RanThen(old(Value()), v1, Value(), SecretOps(p), ConfigOps(p) + (MaintenanceOps(p) + StatefulSetOps(p)), had, n1, calls, ok);
    }

    /** `delete_pipeline_resources_in_k8s`. */
    method Delete(names: ObjectNames) returns (ok: bool)
      modifies this
      ensures Ran(old(Value()), Value(), DeleteOps(names), old(calls), calls, ok)
    {
      ok := RequestAll([DropMaintenance(names.prefix)]
                       + (DeleteSecretOps(names) + ([DropConfigMap(names.configMap)] + DeleteStatefulSetOps(names))));
    }
  }

  /**
    `create_container_environment_json` pushes the variables in this order. What the pod
    needs to start is exactly the source password and the destination type's own secret.
  */
  method CreateContainerEnvironment(p: Pipeline) returns (env: seq<EnvVar>)
    ensures env == ContainerEnv(p)
    ensures forall st :: RefsOk(st, env) <==> HasRequired(st, p.names, TypeOf(p.destination))
  {
    env := PushBase(p);
    var destination := PushDestination(p.names, TypeOf(p.destination));
    env := env + destination;
    if WantsMaintenance(p) {
      env := env + [Plain(MaintenanceName, p.names.prefix)];
      env := env + [Plain(MaintenanceNamespace, "etl-data-plane")];
      env := env + [Plain(MinInlinedBytes, p.minInlinedBytes)];
      env := env + [Plain(MinActiveDataFiles, p.minActiveDataFiles)];
    }
    assert env == ContainerEnv(p);
    forall st ensures RefsOk(st, env) <==> HasRequired(st, p.names, TypeOf(p.destination)) { RefsAreRequired(st, p); }
  }

  method PushBase(p: Pipeline) returns (env: seq<EnvVar>)
    ensures env == BaseEnv(p)
  {
    env := [Plain(AppEnvironment, EnvironmentName(p.environment)), Plain(AppVersion, p.image), Plain(RustLog, p.logLevel)];
    if !p.environment.Prod? { env := env + [Plain(RustBacktrace, "1")]; }
    if !p.environment.Dev? {
      env := env + [FromSecret(SentryDsn, "replicator-sentry-dsn", "dsn", true)];
      env := env + [FromSecret(SupabaseApiKey, "supabase-api-key", "key", true)];
      env := env + [FromSecret(ConfigCatSdkKey, "replicator-configcat-sdk-key", "key", true)];
    }
  }

  method PushDestination(names: ObjectNames, t: DestinationType) returns (env: seq<EnvVar>)
    ensures env == DestinationEnv(names, t)
  {
    env := [PostgresVar(names)];
    match t {
      case BigQueryType =>
        env := env + [FromSecret(BigQueryServiceAccountKey, names.Secret(BigQuerySecret), "service-account-key", false)];
      case IcebergType =>
        env := env + [FromSecret(IcebergCatalogToken, names.Secret(IcebergSecret), "catalog-token", false)];
        env := env + [FromSecret(IcebergS3AccessKeyId, names.Secret(IcebergSecret), "s3-access-key-id", false)];
        env := env + [FromSecret(IcebergS3SecretAccessKey, names.Secret(IcebergSecret), "s3-secret-access-key", false)];
      case ClickHouseType(required) =>
        if required {
          env := env + [FromSecret(ClickHousePassword, names.Secret(ClickHouseSecret), "clickhouse-password", false)];
        }
      case DucklakeType =>
        env := env + [FromSecret(DucklakeS3AccessKeyId, names.Secret(DucklakeSecret), "s3-access-key-id", true)];
        env := env + [FromSecret(DucklakeS3SecretAccessKey, names.Secret(DucklakeSecret), "s3-secret-access-key", true)];
    }
  }
}
