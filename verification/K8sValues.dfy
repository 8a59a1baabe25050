/**
  What the pod of a reconciled pipeline reads: every variable of its environment has the
  configured value, looked up through the secrets of the cluster, and its configuration
  file holds the replicator configuration.
*/
module K8sValues {
  import opened Wrappers
  import opened K8sNames
  import opened K8sResources
  import opened K8sGuarantees

  function Lookup(st: ClusterState, secret: string, key: string): Option<string> {
    if secret in st.secrets && key in st.secrets[secret] then Some(st.secrets[secret][key]) else None
  }

  /** The value a container gets for an entry of its environment. */
  function Reads(st: ClusterState, v: EnvVar): Option<string> {
    if v.Plain? then Some(v.value) else Lookup(st, v.secret, v.key)
  }

  /** The entries that name a variable all give it this value, and there is one. */
  ghost predicate Gives(st: ClusterState, env: seq<EnvVar>, name: Variable, value: Option<string>) {
    && (exists v :: v in env && v.name == name)
    && (forall v :: v in env && v.name == name ==> Reads(st, v) == value)
  }

  predicate Names(env: seq<EnvVar>, name: Variable) {
    exists v :: v in env && v.name == name
  }

  lemma GivesLeft(st: ClusterState, a: seq<EnvVar>, b: seq<EnvVar>, name: Variable, value: Option<string>)
    requires Gives(st, a, name, value) && !Names(b, name)
    ensures Gives(st, a + b, name, value)
  {
    var v :| v in a && v.name == name;
    assert v in a + b;
  }

  lemma GivesRight(st: ClusterState, a: seq<EnvVar>, b: seq<EnvVar>, name: Variable, value: Option<string>)
    requires Gives(st, b, name, value) && !Names(a, name)
    ensures Gives(st, a + b, name, value)
  {
    var v :| v in b && v.name == name;
    assert v in a + b;
  }

  predicate IsBase(name: Variable) {
    || name.AppEnvironment? || name.AppVersion? || name.RustLog? || name.RustBacktrace?
    || name.SentryDsn? || name.SupabaseApiKey? || name.ConfigCatSdkKey?
  }

  predicate IsMaintenance(name: Variable) {
    name.MaintenanceName? || name.MaintenanceNamespace? || name.MinInlinedBytes? || name.MinActiveDataFiles?
  }

  lemma BaseNames(p: Pipeline, name: Variable)
    ensures Names(BaseEnv(p), name) ==> IsBase(name)
  {
  }

  lemma DestinationNames(names: ObjectNames, t: DestinationType, name: Variable)
    ensures Names(DestinationEnv(names, t), name) ==> !IsBase(name) && !IsMaintenance(name)
  {
  }

  lemma MaintenanceNames(p: Pipeline, name: Variable)
    ensures Names(MaintenanceEnv(p), name) ==> IsMaintenance(name)
  {
  }

  lemma FromDestination(st: ClusterState, p: Pipeline, name: Variable, value: Option<string>)
    requires Gives(st, DestinationEnv(p.names, TypeOf(p.destination)), name, value)
    ensures Gives(st, ContainerEnv(p), name, value)
  {
    var a, b, c := BaseEnv(p), DestinationEnv(p.names, TypeOf(p.destination)), MaintenanceEnv(p);
    DestinationNames(p.names, TypeOf(p.destination), name);
    BaseNames(p, name);
    MaintenanceNames(p, name);
    GivesRight(st, a, b, name, value);
    GivesLeft(st, a + b, c, name, value);
  }

  lemma FromBase(st: ClusterState, p: Pipeline, name: Variable, value: Option<string>)
    requires Gives(st, BaseEnv(p), name, value)
    ensures Gives(st, ContainerEnv(p), name, value)
  {
    var a, b, c := BaseEnv(p), DestinationEnv(p.names, TypeOf(p.destination)), MaintenanceEnv(p);
    BaseNames(p, name);
    DestinationNames(p.names, TypeOf(p.destination), name);
    MaintenanceNames(p, name);
    GivesLeft(st, a, b, name, value);
    GivesLeft(st, a + b, c, name, value);
  }

  lemma FromMaintenance(st: ClusterState, p: Pipeline, name: Variable, value: Option<string>)
    requires Gives(st, MaintenanceEnv(p), name, value)
    ensures Gives(st, ContainerEnv(p), name, value)
  {
    var a, b, c := BaseEnv(p), DestinationEnv(p.names, TypeOf(p.destination)), MaintenanceEnv(p);
    MaintenanceNames(p, name);
    BaseNames(p, name);
    DestinationNames(p.names, TypeOf(p.destination), name);
    assert !Names(a + b, name) by { assert forall v :: v in a + b ==> v in a || v in b; }
    GivesRight(st, a + b, c, name, value);
  }

  // Values in the secrets.

  lemma PutSecretGives(st: ClusterState, name: string, data: map<string, string>, key: string, op: Op)
    requires key in data && (op.PutSecret? || op.DropSecret?) && op.name != name
    ensures Lookup(Apply(st, PutSecret(name, data)), name, key) == Some(data[key])
    ensures Lookup(Apply(Apply(st, PutSecret(name, data)), op), name, key) == Some(data[key])
  {
  }

  lemma SecondIsOther(p: Pipeline)
    requires Distinct(p.names) && !p.destination.IcebergRest?
    ensures |SecretOps(p)| == 2 && SecretOps(p)[1].name != p.names.postgres
    ensures SecretOps(p)[1].PutSecret? || SecretOps(p)[1].DropSecret?
  {
    SecretRequests(p);
    assert p.names.Secret(PostgresSecret) == p.names.postgres;
  }

  lemma PostgresValue(st: ClusterState, p: Pipeline)
    requires Distinct(p.names) && !p.destination.IcebergRest?
    ensures Lookup(Run(st, SecretOps(p)), p.names.postgres, "password") == Some(p.postgresPassword.GetOr(""))
  {
    SecondIsOther(p);
    var ops := SecretOps(p);
    RunTwo(st, ops[0], ops[1]);
    PutSecretGives(st, p.names.postgres, map["password" := p.postgresPassword.GetOr("")], "password", ops[1]);
  }

  lemma SecondRequest(st: ClusterState, p: Pipeline)
    requires !p.destination.IcebergRest?
    ensures |SecretOps(p)| == 2 && Run(st, SecretOps(p)) == Apply(Apply(st, SecretOps(p)[0]), SecretOps(p)[1])
  {
    RunTwo(st, SecretOps(p)[0], SecretOps(p)[1]);
  }

  lemma BigQueryValue(st: ClusterState, p: Pipeline)
    requires p.destination.BigQuery?
    ensures Lookup(Run(st, SecretOps(p)), p.names.bigQuery, "service-account-key") == Some(p.destination.serviceAccountKey)
  {
    SecondRequest(st, p);
  }

  lemma IcebergValues(st: ClusterState, p: Pipeline)
    requires p.destination.IcebergSupabase?
    ensures var after := Run(st, SecretOps(p));
      && Lookup(after, p.names.iceberg, "catalog-token") == Some(p.destination.catalogToken)
      && Lookup(after, p.names.iceberg, "s3-access-key-id") == Some(p.destination.s3AccessKeyId)
      && Lookup(after, p.names.iceberg, "s3-secret-access-key") == Some(p.destination.s3SecretAccessKey)
  {
    SecondRequest(st, p);
    assert |"catalog-token"| == 13 && |"s3-access-key-id"| == 16 && |"s3-secret-access-key"| == 20;
  }

  lemma ClickHouseValue(st: ClusterState, p: Pipeline)
    requires p.destination.ClickHouse? && p.destination.password.Some?
    ensures Lookup(Run(st, SecretOps(p)), p.names.clickHouse, "clickhouse-password") == p.destination.password
  {
    SecondRequest(st, p);
  }

  lemma DucklakeValues(st: ClusterState, p: Pipeline)
    requires p.destination.Ducklake?
    ensures var after := Run(st, SecretOps(p));
      var both := p.destination.s3KeyId.Some? && p.destination.s3Secret.Some?;
      && Lookup(after, p.names.ducklake, "s3-access-key-id") == (if both then p.destination.s3KeyId else None)
      && Lookup(after, p.names.ducklake, "s3-secret-access-key") == (if both then p.destination.s3Secret else None)
  {
    SecondRequest(st, p);
    assert |"s3-access-key-id"| == 16 && |"s3-secret-access-key"| == 20;
  }

  // Which secret and key each variable stands for.

  /** An entry whose name occurs once decides what the variable is. */
  lemma GivesAt(st: ClusterState, env: seq<EnvVar>, i: nat)
    requires i < |env| && forall j :: 0 <= j < |env| && j != i ==> env[j].name != env[i].name
    ensures Gives(st, env, env[i].name, Reads(st, env[i]))
  {
    assert env[i] in env;
  }

  lemma PasswordGiven(st: ClusterState, names: ObjectNames, t: DestinationType)
    ensures Gives(st, DestinationEnv(names, t), PgPassword, Lookup(st, names.postgres, "password"))
  {
    var env := DestinationEnv(names, t);
    assert env[0] == PostgresVar(names);
    GivesAt(st, env, 0);
  }

  lemma BigQueryGiven(st: ClusterState, names: ObjectNames)
    ensures Gives(st, DestinationEnv(names, BigQueryType), BigQueryServiceAccountKey, Lookup(st, names.bigQuery, "service-account-key"))
  {
    GivesAt(st, DestinationEnv(names, BigQueryType), 1);
  }

  lemma IcebergGiven(st: ClusterState, names: ObjectNames)
    ensures var env := DestinationEnv(names, IcebergType);
      && Gives(st, env, IcebergCatalogToken, Lookup(st, names.iceberg, "catalog-token"))
      && Gives(st, env, IcebergS3AccessKeyId, Lookup(st, names.iceberg, "s3-access-key-id"))
      && Gives(st, env, IcebergS3SecretAccessKey, Lookup(st, names.iceberg, "s3-secret-access-key"))
  {
    var env := DestinationEnv(names, IcebergType);
    GivesAt(st, env, 1);
    GivesAt(st, env, 2);
    GivesAt(st, env, 3);
  }

  lemma ClickHouseGiven(st: ClusterState, names: ObjectNames)
    ensures Gives(st, DestinationEnv(names, ClickHouseType(true)), ClickHousePassword, Lookup(st, names.clickHouse, "clickhouse-password"))
  {
    GivesAt(st, DestinationEnv(names, ClickHouseType(true)), 1);
  }

  lemma ClickHouseAbsent(names: ObjectNames)
    ensures !Names(DestinationEnv(names, ClickHouseType(false)), ClickHousePassword)
  {
  }

  lemma DucklakeGiven(st: ClusterState, names: ObjectNames)
    ensures var env := DestinationEnv(names, DucklakeType);
      && Gives(st, env, DucklakeS3AccessKeyId, Lookup(st, names.ducklake, "s3-access-key-id"))
      && Gives(st, env, DucklakeS3SecretAccessKey, Lookup(st, names.ducklake, "s3-secret-access-key"))
  {
    var env := DestinationEnv(names, DucklakeType);
    GivesAt(st, env, 1);
    GivesAt(st, env, 2);
  }

  lemma SameLookups(a: ClusterState, b: ClusterState, secret: string, key: string)
    requires a.secrets == b.secrets
    ensures Lookup(a, secret, key) == Lookup(b, secret, key)
  {
  }

  ghost predicate PodGives(st: ClusterState, p: Pipeline, name: Variable, value: Option<string>) {
    p.names.current in st.statefulSets && Gives(st, st.statefulSets[p.names.current].env, name, value)
  }

  /** The pod's environment after a reconcile, seen through the secrets that the reconcile wrote. */
  lemma PodGivesFrom(st: ClusterState, p: Pipeline, name: Variable, secret: string, key: string)
    requires Distinct(p.names)
    requires var after := Run(st, ReconcileOps(p));
      Gives(after, DestinationEnv(p.names, TypeOf(p.destination)), name, Lookup(after, secret, key))
    ensures PodGives(Run(st, ReconcileOps(p)), p, name, Lookup(Run(st, SecretOps(p)), secret, key))
  {
    var after := Run(st, ReconcileOps(p));
    ReconcileDeploys(st, p);
    SameLookups(after, Run(st, SecretOps(p)), secret, key);
    FromDestination(after, p, name, Lookup(after, secret, key));
  }

  /** The source password reaches the pod, except that Iceberg REST keeps whatever secret was there. */
  lemma PodReadsPassword(st: ClusterState, p: Pipeline)
    requires Distinct(p.names)
    ensures PodGives(Run(st, ReconcileOps(p)), p, PgPassword,
      if p.destination.IcebergRest? then Lookup(st, p.names.postgres, "password") else Some(p.postgresPassword.GetOr("")))
  {
    PasswordGiven(Run(st, ReconcileOps(p)), p.names, TypeOf(p.destination));
    PodGivesFrom(st, p, PgPassword, p.names.postgres, "password");
    if !p.destination.IcebergRest? { PostgresValue(st, p); }
  }

  lemma PodReadsBigQuery(st: ClusterState, p: Pipeline)
    requires Distinct(p.names) && p.destination.BigQuery?
    ensures PodGives(Run(st, ReconcileOps(p)), p, BigQueryServiceAccountKey, Some(p.destination.serviceAccountKey))
  {
    BigQueryGiven(Run(st, ReconcileOps(p)), p.names);
    PodGivesFrom(st, p, BigQueryServiceAccountKey, p.names.bigQuery, "service-account-key");
    BigQueryValue(st, p);
  }

  lemma PodReadsIceberg(st: ClusterState, p: Pipeline)
    requires Distinct(p.names) && p.destination.IcebergSupabase?
    ensures var after := Run(st, ReconcileOps(p));
      && PodGives(after, p, IcebergCatalogToken, Some(p.destination.catalogToken))
      && PodGives(after, p, IcebergS3AccessKeyId, Some(p.destination.s3AccessKeyId))
      && PodGives(after, p, IcebergS3SecretAccessKey, Some(p.destination.s3SecretAccessKey))
  {
    IcebergGiven(Run(st, ReconcileOps(p)), p.names);
    PodGivesFrom(st, p, IcebergCatalogToken, p.names.iceberg, "catalog-token");
    PodGivesFrom(st, p, IcebergS3AccessKeyId, p.names.iceberg, "s3-access-key-id");
    PodGivesFrom(st, p, IcebergS3SecretAccessKey, p.names.iceberg, "s3-secret-access-key");
    IcebergValues(st, p);
  }

  /** A ClickHouse password reaches the pod; without one the pod has no such variable. */
  lemma PodReadsClickHouse(st: ClusterState, p: Pipeline)
    requires Distinct(p.names) && p.destination.ClickHouse?
    ensures var after := Run(st, ReconcileOps(p));
      && p.names.current in after.statefulSets
      && if p.destination.password.Some? then PodGives(after, p, ClickHousePassword, p.destination.password)
         else !Names(after.statefulSets[p.names.current].env, ClickHousePassword)
  {
    ReconcileDeploys(st, p);
    if p.destination.password.Some? {
      ClickHouseGiven(Run(st, ReconcileOps(p)), p.names);
      PodGivesFrom(st, p, ClickHousePassword, p.names.clickHouse, "clickhouse-password");
      ClickHouseValue(st, p);
    } else {
      NoClickHousePassword(p);
    }
  }

  lemma NoClickHousePassword(p: Pipeline)
    requires p.destination == ClickHouse(None)
    ensures !Names(ContainerEnv(p), ClickHousePassword)
  {
    BaseNames(p, ClickHousePassword);
    MaintenanceNames(p, ClickHousePassword);
    ClickHouseAbsent(p.names);
    var a, b, c := BaseEnv(p), DestinationEnv(p.names, ClickHouseType(false)), MaintenanceEnv(p);
    assert forall v :: v in a + b + c ==> v in a || v in b || v in c;
  }

  /** S3 credentials reach a DuckLake pod if both are configured; otherwise it sees neither, even an old one. */
  lemma PodReadsDucklake(st: ClusterState, p: Pipeline)
    requires Distinct(p.names) && p.destination.Ducklake?
    ensures var after := Run(st, ReconcileOps(p));
      var both := p.destination.s3KeyId.Some? && p.destination.s3Secret.Some?;
      && PodGives(after, p, DucklakeS3AccessKeyId, if both then p.destination.s3KeyId else None)
      && PodGives(after, p, DucklakeS3SecretAccessKey, if both then p.destination.s3Secret else None)
  {
    ReconcileDeploys(st, p);
    DucklakeValues(st, p);
    DucklakePod(Run(st, ReconcileOps(p)), Run(st, SecretOps(p)), p);
  }

  lemma DucklakePod(after: ClusterState, mid: ClusterState, p: Pipeline)
    requires p.destination.Ducklake? && after.secrets == mid.secrets
    requires p.names.current in after.statefulSets && after.statefulSets[p.names.current].env == ContainerEnv(p)
    ensures PodGives(after, p, DucklakeS3AccessKeyId, Lookup(mid, p.names.ducklake, "s3-access-key-id"))
    ensures PodGives(after, p, DucklakeS3SecretAccessKey, Lookup(mid, p.names.ducklake, "s3-secret-access-key"))
  {
    DucklakeGiven(after, p.names);
    PodGivesIn(after, mid, p, DucklakeType, DucklakeS3AccessKeyId, p.names.ducklake, "s3-access-key-id");
    PodGivesIn(after, mid, p, DucklakeType, DucklakeS3SecretAccessKey, p.names.ducklake, "s3-secret-access-key");
  }

  lemma PodGivesIn(after: ClusterState, mid: ClusterState, p: Pipeline, t: DestinationType, name: Variable, secret: string, key: string)
    requires TypeOf(p.destination) == t && after.secrets == mid.secrets
    requires p.names.current in after.statefulSets && after.statefulSets[p.names.current].env == ContainerEnv(p)
    requires Gives(after, DestinationEnv(p.names, t), name, Lookup(after, secret, key))
    ensures PodGives(after, p, name, Lookup(mid, secret, key))
  {
    FromDestination(after, p, name, Lookup(after, secret, key));
    SameLookups(after, mid, secret, key);
  }

  // The other variables and the configuration file.

  /** The name of a deployment environment, in variables and file names. */
  predicate IsNameOf(e: Environment, name: string) {
    match e case Prod => name == "prod" case Staging => name == "staging" case Dev => name == "dev"
  }

  lemma BaseEntry(p: Pipeline, i: nat)
    requires i < |BaseEnv(p)|
    ensures forall j :: 0 <= j < |BaseEnv(p)| && j != i ==> BaseEnv(p)[j].name != BaseEnv(p)[i].name
  {
  }

  lemma BaseGives(st: ClusterState, p: Pipeline)
    ensures var env := BaseEnv(p);
      && Gives(st, env, AppEnvironment, Some(EnvironmentName(p.environment)))
      && Gives(st, env, AppVersion, Some(p.image)) && Gives(st, env, RustLog, Some(p.logLevel))
      && (!p.environment.Prod? ==> Gives(st, env, RustBacktrace, Some("1")))
  {
    var env := BaseEnv(p);
    BaseEntry(p, 0);
    GivesAt(st, env, 0);
    BaseEntry(p, 1);
    GivesAt(st, env, 1);
    BaseEntry(p, 2);
    GivesAt(st, env, 2);
    if !p.environment.Prod? {
      BaseEntry(p, 3);
      GivesAt(st, env, 3);
    }
  }

  lemma SharedGives(st: ClusterState, p: Pipeline)
    requires !p.environment.Dev?
    ensures var env := BaseEnv(p);
      && Gives(st, env, SentryDsn, Lookup(st, "replicator-sentry-dsn", "dsn"))
      && Gives(st, env, SupabaseApiKey, Lookup(st, "supabase-api-key", "key"))
      && Gives(st, env, ConfigCatSdkKey, Lookup(st, "replicator-configcat-sdk-key", "key"))
  {
    var env, n := BaseEnv(p), |BaseEnv(p)|;
    BaseEntry(p, n - 3);
    GivesAt(st, env, n - 3);
    BaseEntry(p, n - 2);
    GivesAt(st, env, n - 2);
    BaseEntry(p, n - 1);
    GivesAt(st, env, n - 1);
  }

  /** The pod runs the configured image with the environment's name, version and log level, and the shared secrets outside development. */
  lemma PodReadsBase(st: ClusterState, p: Pipeline)
    requires Distinct(p.names)
    ensures var after := Run(st, ReconcileOps(p));
      && p.names.current in after.statefulSets && after.statefulSets[p.names.current].image == p.image
      && (exists name :: IsNameOf(p.environment, name) && PodGives(after, p, AppEnvironment, Some(name)))
      && PodGives(after, p, AppVersion, Some(p.image)) && PodGives(after, p, RustLog, Some(p.logLevel))
      && (!p.environment.Prod? ==> PodGives(after, p, RustBacktrace, Some("1")))
      && (!p.environment.Dev? ==>
            && PodGives(after, p, SentryDsn, Lookup(after, "replicator-sentry-dsn", "dsn"))
            && PodGives(after, p, SupabaseApiKey, Lookup(after, "supabase-api-key", "key"))
            && PodGives(after, p, ConfigCatSdkKey, Lookup(after, "replicator-configcat-sdk-key", "key")))
  {
    var after := Run(st, ReconcileOps(p));
    ReconcileDeploys(st, p);
    BaseGives(after, p);
    var name := EnvironmentName(p.environment);
    assert IsNameOf(p.environment, name);
    FromBase(after, p, AppEnvironment, Some(name));
    FromBase(after, p, AppVersion, Some(p.image));
    FromBase(after, p, RustLog, Some(p.logLevel));
    if !p.environment.Prod? { FromBase(after, p, RustBacktrace, Some("1")); }
    if !p.environment.Dev? {
      SharedGives(after, p);
      FromBase(after, p, SentryDsn, Lookup(after, "replicator-sentry-dsn", "dsn"));
      FromBase(after, p, SupabaseApiKey, Lookup(after, "supabase-api-key", "key"));
      FromBase(after, p, ConfigCatSdkKey, Lookup(after, "replicator-configcat-sdk-key", "key"));
    }
    assert PodGives(after, p, AppEnvironment, Some(name));
  }

  /** With Kubernetes maintenance the pod is told the resource and its thresholds. */
  lemma PodReadsMaintenance(st: ClusterState, p: Pipeline)
    requires Distinct(p.names) && WantsMaintenance(p)
    ensures var after := Run(st, ReconcileOps(p));
      && PodGives(after, p, MaintenanceName, Some(p.names.prefix)) && p.names.prefix in after.maintenance
      && PodGives(after, p, MaintenanceNamespace, Some("etl-data-plane"))
      && PodGives(after, p, MinInlinedBytes, Some(p.minInlinedBytes))
      && PodGives(after, p, MinActiveDataFiles, Some(p.minActiveDataFiles))
  {
    var after := Run(st, ReconcileOps(p));
    ReconcileDeploys(st, p);
    MaintenanceGives(after, p);
    FromMaintenance(after, p, MaintenanceName, Some(p.names.prefix));
    FromMaintenance(after, p, MaintenanceNamespace, Some("etl-data-plane"));
    FromMaintenance(after, p, MinInlinedBytes, Some(p.minInlinedBytes));
    FromMaintenance(after, p, MinActiveDataFiles, Some(p.minActiveDataFiles));
  }

  lemma MaintenanceGives(st: ClusterState, p: Pipeline)
    requires WantsMaintenance(p)
    ensures var env := MaintenanceEnv(p);
      && Gives(st, env, MaintenanceName, Some(p.names.prefix)) && Gives(st, env, MaintenanceNamespace, Some("etl-data-plane"))
      && Gives(st, env, MinInlinedBytes, Some(p.minInlinedBytes))
      && Gives(st, env, MinActiveDataFiles, Some(p.minActiveDataFiles))
  {
    var env := MaintenanceEnv(p);
    GivesAt(st, env, 0);
    GivesAt(st, env, 1);
    GivesAt(st, env, 2);
    GivesAt(st, env, 3);
  }

  /** The file named after the pod's environment holds the replicator configuration, over an empty base file. */
  lemma PodReadsConfig(st: ClusterState, p: Pipeline, name: string)
    requires Distinct(p.names) && IsNameOf(p.environment, name)
    ensures var after := Run(st, ReconcileOps(p));
      && p.names.current in after.statefulSets
      && after.statefulSets[p.names.current].configMap in after.configMaps
      && after.configMaps[after.statefulSets[p.names.current].configMap] == map["base.json" := "{}", name + ".json" := p.replicatorConfig]
      && name + ".json" != "base.json"
  {
    ReconcileDeploys(st, p);
    ConfigDeployed(st, p);
    assert name == EnvironmentName(p.environment);
    assert (name + ".json")[0] == name[0] != 'b';
  }

  lemma ConfigDeployed(st: ClusterState, p: Pipeline)
    requires Distinct(p.names)
    ensures var after := Run(st, ReconcileOps(p));
      p.names.configMap in after.configMaps && after.configMaps[p.names.configMap] == ConfigOps(p)[0].files
  {
    RunConcat(st, SecretOps(p), LaterOps(p));
    var spec := StatefulSet(p.image, ContainerEnv(p), p.names.configMap);
    var m := MaintenanceOps(p)[0];
    assert LaterOps(p) == [ConfigOps(p)[0], m, DropStatefulSet(p.names.legacy), PutStatefulSet(p.names.current, spec)];
    Deploys(Run(st, SecretOps(p)), p.names, ConfigOps(p)[0].files, m, spec);
  }
}
