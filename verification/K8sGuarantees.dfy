/**
  What reconciling and deleting guarantee: the pod's references resolve, the
  maintenance resource exists exactly when it is named, pipelines do not touch each
  other's objects, and a completed delete leaves nothing behind.
*/
module K8sGuarantees {
  import opened Wrappers
  import opened K8sNames
  import opened K8sResources

  // What the requests do to the pod's references.

  lemma RunTwo(st: ClusterState, a: Op, b: Op)
    ensures Run(st, [a, b]) == Apply(Apply(st, a), b)
  {
    assert [a, b][1..] == [b] && [b][1..] == [];
    assert Run(Apply(st, a), [b]) == Run(Apply(Apply(st, a), b), []);
  }

  lemma RunFour(st: ClusterState, a: Op, b: Op, c: Op, d: Op)
    ensures Run(st, [a, b, c, d]) == Apply(Apply(Apply(Apply(st, a), b), c), d)
  {
    assert [a, b, c, d] == [a, b] + [c, d];
    RunConcat(st, [a, b], [c, d]);
    RunTwo(st, a, b);
    RunTwo(Apply(Apply(st, a), b), c, d);
  }

  /** The request writes secret `k` with all its keys. */
  predicate Provides(names: ObjectNames, k: SecretKind, op: Op) {
    op.PutSecret? && op.name == names.Secret(k) && KeysOf(k) <= op.data.Keys
  }

  lemma PutKeeps(st: ClusterState, names: ObjectNames, op: Op, k: SecretKind, other: SecretKind)
    requires Distinct(names) && Provides(names, k, op)
    ensures HasKeys(Apply(st, op), names, k)
    ensures HasKeys(st, names, other) ==> HasKeys(Apply(st, op), names, other)
  {
  }

  lemma DropKeeps(st: ClusterState, names: ObjectNames, k: SecretKind, other: SecretKind)
    requires Distinct(names)
    ensures HasKeys(Apply(st, DropSecret(names.Secret(k))), names, other) <==> HasKeys(st, names, other) && other != k
  {
  }

  /** What the two secret requests do: the source password first, then one put or one drop. */
  lemma SecretRequests(p: Pipeline)
    requires !p.destination.IcebergRest?
    ensures var ops := SecretOps(p);
      && |ops| == 2 && Provides(p.names, PostgresSecret, ops[0])
      && match p.destination {
           case BigQuery(_) => Provides(p.names, BigQuerySecret, ops[1])
           case IcebergRest => false
           case IcebergSupabase(_, _, _) => Provides(p.names, IcebergSecret, ops[1])
           case ClickHouse(password) =>
             if password.Some? then Provides(p.names, ClickHouseSecret, ops[1])
             else ops[1] == DropSecret(p.names.Secret(ClickHouseSecret))
           case Ducklake(id, secret, _) =>
             if id.Some? && secret.Some? then Provides(p.names, DucklakeSecret, ops[1])
             else ops[1] == DropSecret(p.names.Secret(DucklakeSecret))
         }
  {
  }

  /** After the secret requests everything required is there, unless the destination is Iceberg REST. */
  lemma SecretsCreated(st: ClusterState, p: Pipeline)
    requires !p.destination.IcebergRest? && Distinct(p.names)
    ensures HasRequired(Run(st, SecretOps(p)), p.names, TypeOf(p.destination))
  {
    SecretRequests(p);
    var ops := SecretOps(p);
    RunTwo(st, ops[0], ops[1]);
    var s1 := Apply(st, ops[0]);
    PutKeeps(st, p.names, ops[0], PostgresSecret, PostgresSecret);
    if ops[1].PutSecret? {
      var k := match p.destination case BigQuery(_) => BigQuerySecret case ClickHouse(_) => ClickHouseSecret
                                   case Ducklake(_, _, _) => DucklakeSecret case _ => IcebergSecret;
      PutKeeps(s1, p.names, ops[1], k, PostgresSecret);
    } else {
      DropKeeps(s1, p.names, if p.destination.Ducklake? then DucklakeSecret else ClickHouseSecret, PostgresSecret);
    }
  }

  lemma {:induction false} SecretsKept(st: ClusterState, ops: seq<Op>)
    requires forall op :: op in ops ==> !op.PutSecret? && !op.DropSecret?
    ensures Run(st, ops).secrets == st.secrets
    decreases |ops|
  {
    if ops != [] { SecretsKept(Apply(st, ops[0]), ops[1..]); }
  }

  /** The part of a reconcile that follows the secrets. */
  function LaterOps(p: Pipeline): seq<Op> {
    ConfigOps(p) + (MaintenanceOps(p) + StatefulSetOps(p))
  }

  lemma LaterKeepSecrets(p: Pipeline)
    ensures forall op :: op in LaterOps(p) ==> !op.PutSecret? && !op.DropSecret?
  {
  }

  /** The secrets after any number of reconcile requests are those after the secret requests among them. */
  lemma SecretsAt(st: ClusterState, a: seq<Op>, b: seq<Op>, n: nat)
    requires n <= |a + b| && forall op :: op in b ==> !op.PutSecret? && !op.DropSecret?
    ensures Run(st, (a + b)[..n]).secrets == Run(st, if n <= |a| then a[..n] else a).secrets
  {
    if n <= |a| {
      assert (a + b)[..n] == a[..n];
    } else {
      assert (a + b)[..n] == a + b[..n - |a|];
      RunConcat(st, a, b[..n - |a|]);
      SecretsKept(Run(st, a), b[..n - |a|]);
    }
  }

  lemma SameSecrets(a: ClusterState, b: ClusterState, names: ObjectNames, t: DestinationType)
    requires a.secrets == b.secrets
    ensures HasRequired(a, names, t) <==> HasRequired(b, names, t)
  {
  }

  /**
    A completed reconcile leaves every required reference of the pod resolved, from any
    prior cluster, except for Iceberg REST: there it holds exactly when it held before.
  */
  lemma ReconcileResolves(st: ClusterState, p: Pipeline)
    requires Distinct(p.names)
    ensures RefsOk(Run(st, ReconcileOps(p)), ContainerEnv(p)) <==>
            !p.destination.IcebergRest? || RefsOk(st, ContainerEnv(p))
  {
    var ops, t := ReconcileOps(p), TypeOf(p.destination);
    assert ops[..|ops|] == ops;
    LaterKeepSecrets(p);
    SecretsAt(st, SecretOps(p), LaterOps(p), |ops|);
    SameSecrets(Run(st, ops), Run(st, SecretOps(p)), p.names, t);
    RefsAreRequired(st, p);
    RefsAreRequired(Run(st, ops), p);
    if !p.destination.IcebergRest? { SecretsCreated(st, p); }
  }

  /** On a fresh cluster an Iceberg REST pipeline is deployed with references to secrets nobody creates. */
  lemma IcebergRestUnresolved(p: Pipeline)
    requires Distinct(p.names) && p.destination.IcebergRest?
    ensures !RefsOk(Run(ClusterState(map[], map[], map[], map[]), ReconcileOps(p)), ContainerEnv(p))
  {
    ReconcileResolves(ClusterState(map[], map[], map[], map[]), p);
    RefsAreRequired(ClusterState(map[], map[], map[], map[]), p);
  }

  /** The secrets a deployed pod requires, while another configuration's secrets are being written. */
  lemma SecretsDuring(st: ClusterState, p: Pipeline, t: DestinationType, n: nat)
    requires Distinct(p.names) && HasRequired(st, p.names, t) && n <= |SecretOps(p)|
    ensures HasRequired(Run(st, SecretOps(p)[..n]), p.names, t) <==>
            !(n == 2 && p.destination == ClickHouse(None) && t == ClickHouseType(true))
  {
    if !p.destination.IcebergRest? && n > 0 {
      SecretRequests(p);
      var ops := SecretOps(p);
      var s1 := Apply(st, ops[0]);
      assert ops[..1] == [ops[0]] && [ops[0]][1..] == [];
      assert Run(st, [ops[0]]) == Run(s1, []) == s1;
      KeptByPut(st, p.names, ops[0], PostgresSecret, t);
      if n == 2 {
        assert ops[..2] == [ops[0], ops[1]];
        RunTwo(st, ops[0], ops[1]);
        SecondSecretRequest(s1, p, t);
      }
    }
  }

  lemma KeptByPut(st: ClusterState, names: ObjectNames, op: Op, k: SecretKind, t: DestinationType)
    requires Distinct(names) && Provides(names, k, op) && HasRequired(st, names, t)
    ensures HasRequired(Apply(st, op), names, t)
  {
  }

  lemma SecondSecretRequest(st: ClusterState, p: Pipeline, t: DestinationType)
    requires Distinct(p.names) && HasRequired(st, p.names, t) && !p.destination.IcebergRest?
    requires |SecretOps(p)| == 2
    ensures HasRequired(Apply(st, SecretOps(p)[1]), p.names, t) <==> !(p.destination == ClickHouse(None) && t == ClickHouseType(true))
  {
    SecretRequests(p);
    var op := SecretOps(p)[1];
    var k := match p.destination case BigQuery(_) => BigQuerySecret case ClickHouse(_) => ClickHouseSecret
                                 case Ducklake(_, _, _) => DucklakeSecret case _ => IcebergSecret;
    if op.PutSecret? {
      KeptByPut(st, p.names, op, k, t);
    } else {
      DropKeeps(st, p.names, k, PostgresSecret);
      if RequiredSecret(t).Some? { DropKeeps(st, p.names, k, RequiredSecret(t).value); }
    }
  }

  /**
    Wherever a reconcile to configuration `p` stops, the pods already deployed from
    configuration `q` keep their references, unless the ClickHouse password was removed:
    its secret is dropped before the set that still requires it is replaced.
  */
  lemma DeployedReferencesDuringReconcile(st: ClusterState, p: Pipeline, q: Pipeline, n: nat)
    requires q.names == p.names && Distinct(p.names)
    requires RefsOk(st, ContainerEnv(q)) && n <= |ReconcileOps(p)|
    ensures RefsOk(Run(st, ReconcileOps(p)[..n]), ContainerEnv(q)) <==>
            !(n >= 2 && p.destination == ClickHouse(None) && q.destination.ClickHouse? && q.destination.password.Some?)
  {
    var t := TypeOf(q.destination);
    var k := if n <= |SecretOps(p)| then n else |SecretOps(p)|;
    var a := SecretOps(p);
    assert a[..|a|] == a;
    RefsAreRequired(st, q);
    RefsAreRequired(Run(st, ReconcileOps(p)[..n]), q);
    LaterKeepSecrets(p);
    SecretsAt(st, a, LaterOps(p), n);
    SameSecrets(Run(st, ReconcileOps(p)[..n]), Run(st, a[..k]), p.names, t);
    SecretsDuring(st, p, t, k);
    assert p.destination == ClickHouse(None) ==> |a| == 2;
  }

  /** Removing the ClickHouse password and stopping after two requests strands the running pod. */
  lemma ClickHousePasswordStranded(st: ClusterState, q: Pipeline)
    requires Distinct(q.names) && q.destination.ClickHouse? && q.destination.password.Some?
    ensures var p := q.(destination := ClickHouse(None));
      var running := Run(st, ReconcileOps(q));
      && RefsOk(running, ContainerEnv(q))
      && |ReconcileOps(p)| > 2
      && !RefsOk(Run(running, ReconcileOps(p)[..2]), ContainerEnv(q))
  {
    ReconcileResolves(st, q);
    DeployedReferencesDuringReconcile(Run(st, ReconcileOps(q)), q.(destination := ClickHouse(None)), q, 2);
  }

  // The maintenance resource.

  /** The four requests after the secrets. */
  lemma Deploys(st: ClusterState, names: ObjectNames, files: map<string, string>, m: Op, spec: StatefulSet)
    requires Distinct(names) && (m.PutMaintenance? || m.DropMaintenance?) && m.name == names.prefix
    ensures var after := Run(st, [PutConfigMap(names.configMap, files), m, DropStatefulSet(names.legacy), PutStatefulSet(names.current, spec)]);
      && names.legacy !in after.statefulSets
      && names.current in after.statefulSets && after.statefulSets[names.current] == spec
      && names.configMap in after.configMaps && after.configMaps[names.configMap] == files
      && after.secrets == st.secrets
      && (names.prefix in after.maintenance <==> m.PutMaintenance?)
      && (m.PutMaintenance? ==> after.maintenance[names.prefix] == m.refs)
  {
    RunFour(st, PutConfigMap(names.configMap, files), m, DropStatefulSet(names.legacy), PutStatefulSet(names.current, spec));
  }

  /** A completed reconcile leaves exactly one StatefulSet, the current one, built from the configuration. */
  lemma ReconcileDeploys(st: ClusterState, p: Pipeline)
    requires Distinct(p.names)
    ensures var after := Run(st, ReconcileOps(p));
      && p.names.legacy !in after.statefulSets
      && p.names.current in after.statefulSets
      && after.statefulSets[p.names.current] == StatefulSet(p.image, ContainerEnv(p), p.names.configMap)
      && p.names.configMap in after.configMaps
      && after.secrets == Run(st, SecretOps(p)).secrets
      && (p.names.prefix in after.maintenance <==> WantsMaintenance(p))
      && (WantsMaintenance(p) ==> after.maintenance[p.names.prefix] == MaintenanceOps(p)[0].refs)
  {
    RunConcat(st, SecretOps(p), LaterOps(p));
    var spec := StatefulSet(p.image, ContainerEnv(p), p.names.configMap);
    var m := MaintenanceOps(p)[0];
    assert LaterOps(p) == [ConfigOps(p)[0], m, DropStatefulSet(p.names.legacy), PutStatefulSet(p.names.current, spec)];
    Deploys(Run(st, SecretOps(p)), p.names, ConfigOps(p)[0].files, m, spec);
  }

  predicate NamesMaintenance(env: seq<EnvVar>) {
    exists v :: v in env && v.name == MaintenanceName
  }

  lemma NamesConcat(a: seq<EnvVar>, b: seq<EnvVar>)
    ensures NamesMaintenance(a + b) <==> NamesMaintenance(a) || NamesMaintenance(b)
  {
  }

  lemma BasePartDoesNotName(p: Pipeline)
    ensures !NamesMaintenance(BaseEnv(p))
  {
  }

  lemma DestinationPartDoesNotName(names: ObjectNames, t: DestinationType)
    ensures !NamesMaintenance(DestinationEnv(names, t))
  {
  }

  lemma MaintenancePartNames(p: Pipeline)
    ensures NamesMaintenance(MaintenanceEnv(p)) <==> WantsMaintenance(p)
  {
  }

  lemma MaintenanceNamed(p: Pipeline)
    ensures NamesMaintenance(ContainerEnv(p)) <==> WantsMaintenance(p)
  {
    var a, b, c := BaseEnv(p), DestinationEnv(p.names, TypeOf(p.destination)), MaintenanceEnv(p);
    NamesConcat(a, b);
    NamesConcat(a + b, c);
    BasePartDoesNotName(p);
    DestinationPartDoesNotName(p.names, TypeOf(p.destination));
    MaintenancePartNames(p);
  }

  lemma DucklakeSecretCreated(st: ClusterState, p: Pipeline)
    requires p.destination.Ducklake? && Distinct(p.names)
    ensures var secrets := Run(st, SecretOps(p)).secrets;
      && p.names.Secret(PostgresSecret) in secrets
      && (p.names.Secret(DucklakeSecret) in secrets <==> p.destination.s3KeyId.Some? && p.destination.s3Secret.Some?)
  {
    SecretsCreated(st, p);
    var ops := SecretOps(p);
    RunTwo(st, ops[0], ops[1]);
  }

  /**
    The maintenance resource exists after a completed reconcile exactly when the pod
    environment names it; then its config map and source password exist, and its
    DuckLake secret exists exactly when both S3 credentials are configured.
  */
  lemma MaintenanceMatchesEnvironment(st: ClusterState, p: Pipeline)
    requires Distinct(p.names)
    ensures var after := Run(st, ReconcileOps(p));
      && (p.names.prefix in after.maintenance <==> NamesMaintenance(ContainerEnv(p)))
      && (p.names.prefix in after.maintenance ==>
            var refs := after.maintenance[p.names.prefix];
            && p.destination.Ducklake?
            && refs.configMap in after.configMaps
            && refs.postgresSecret in after.secrets
            && (refs.ducklakeSecret in after.secrets <==> p.destination.s3KeyId.Some? && p.destination.s3Secret.Some?))
  {
    ReconcileDeploys(st, p);
    MaintenanceNamed(p);
    if WantsMaintenance(p) { DucklakeSecretCreated(st, p); }
  }

  // Isolation and deletion.

  /** The objects of one pipeline. */
  datatype View = View(
    secrets: map<SecretKind, map<string, string>>,
    configMap: Option<map<string, string>>,
    sets: map<Generation, StatefulSet>,
    maintenance: Option<Maintenance>
  )

  const EMPTY_VIEW := View(map[], None, map[], None)

  function Find<T>(m: map<string, T>, name: string): Option<T> {
    if name in m then Some(m[name]) else None
  }

  ghost function SecretsOf(secrets: map<string, map<string, string>>, names: ObjectNames): map<SecretKind, map<string, string>> {
    map k: SecretKind | names.Secret(k) in secrets :: secrets[names.Secret(k)]
  }

  ghost function SetsOf(sets: map<string, StatefulSet>, names: ObjectNames): map<Generation, StatefulSet> {
    map g: Generation | names.Set(g) in sets :: sets[names.Set(g)]
  }

  ghost function ViewOf(st: ClusterState, names: ObjectNames): View {
    View(SecretsOf(st.secrets, names),
         Find(st.configMaps, names.configMap),
         SetsOf(st.statefulSets, names),
         Find(st.maintenance, names.prefix))
  }

  /** The request names an object of this pipeline. */
  ghost predicate Owns(names: ObjectNames, op: Op) {
    if op.PutSecret? || op.DropSecret? then exists k :: op.name == names.Secret(k)
    else if op.PutConfigMap? || op.DropConfigMap? then op.name == names.configMap
    else if op.PutStatefulSet? || op.DropStatefulSet? then exists g :: op.name == names.Set(g)
    else op.name == names.prefix
  }

  ghost predicate OwnsAll(names: ObjectNames, ops: seq<Op>) {
    forall op :: op in ops ==> Owns(names, op)
  }

  lemma OwnsConcat(names: ObjectNames, a: seq<Op>, b: seq<Op>)
    requires OwnsAll(names, a) && OwnsAll(names, b)
    ensures OwnsAll(names, a + b)
  {
  }

  lemma SecretsOwned(p: Pipeline)
    ensures OwnsAll(p.names, SecretOps(p))
  {
  }

  lemma LaterOwned(p: Pipeline)
    ensures OwnsAll(p.names, LaterOps(p))
  {
  }

  lemma ReconcileOwns(p: Pipeline)
    ensures OwnsAll(p.names, ReconcileOps(p))
  {
    SecretsOwned(p);
    LaterOwned(p);
    OwnsConcat(p.names, SecretOps(p), LaterOps(p));
  }

  lemma DeleteOwns(names: ObjectNames)
    ensures OwnsAll(names, DeleteOps(names))
  {
  }

  lemma ForeignSecret(st: ClusterState, op: Op, other: ObjectNames)
    requires !Owns(other, op)
    ensures SecretsOf(Apply(st, op).secrets, other) == SecretsOf(st.secrets, other)
  {
    if op.PutSecret? || op.DropSecret? {
      assert forall k :: op.name != other.Secret(k);
    } else {
      assert Apply(st, op).secrets == st.secrets;
    }
  }

  lemma ForeignSet(st: ClusterState, op: Op, other: ObjectNames)
    requires !Owns(other, op)
    ensures SetsOf(Apply(st, op).statefulSets, other) == SetsOf(st.statefulSets, other)
  {
    if op.PutStatefulSet? || op.DropStatefulSet? {
      assert forall g :: op.name != other.Set(g);
    } else {
      assert Apply(st, op).statefulSets == st.statefulSets;
    }
  }

  lemma ForeignRest(st: ClusterState, op: Op, other: ObjectNames)
    requires !Owns(other, op)
    ensures Find(Apply(st, op).configMaps, other.configMap) == Find(st.configMaps, other.configMap)
    ensures Find(Apply(st, op).maintenance, other.prefix) == Find(st.maintenance, other.prefix)
  {
  }

  lemma OneOwner(op: Op, mine: ObjectNames, other: ObjectNames)
    requires Owns(mine, op) && Disjoint(mine, other)
    ensures !Owns(other, op)
  {
  }

  lemma ForeignRequest(st: ClusterState, op: Op, other: ObjectNames)
    requires !Owns(other, op)
    ensures ViewOf(Apply(st, op), other) == ViewOf(st, other)
  {
    ForeignSecret(st, op, other);
    ForeignSet(st, op, other);
    ForeignRest(st, op, other);
  }

  /** No interrupted or completed sequence of requests for one pipeline reaches another's objects. */
  lemma {:induction false} Isolation(st: ClusterState, ops: seq<Op>, mine: ObjectNames, other: ObjectNames)
    requires OwnsAll(mine, ops) && Disjoint(mine, other)
    ensures ViewOf(Run(st, ops), other) == ViewOf(st, other)
    decreases |ops|
  {
    if ops != [] {
      assert ops[0] in ops;
      OneOwner(ops[0], mine, other);
      ForeignRequest(st, ops[0], other);
      Isolation(Apply(st, ops[0]), ops[1..], mine, other);
    }
  }

  predicate IsDrop(op: Op) {
    op.DropSecret? || op.DropConfigMap? || op.DropStatefulSet? || op.DropMaintenance?
  }

  predicate Absent(st: ClusterState, op: Op)
    requires IsDrop(op)
  {
    match op
    case DropSecret(name) => name !in st.secrets
    case DropConfigMap(name) => name !in st.configMaps
    case DropStatefulSet(name) => name !in st.statefulSets
    case DropMaintenance(name) => name !in st.maintenance
  }

  /** Deletions only remove, so what one of them removed stays away. */
  lemma {:induction false} DropsRemove(st: ClusterState, ops: seq<Op>, gone: Op)
    requires IsDrop(gone) && forall op :: op in ops ==> IsDrop(op)
    requires gone in ops || Absent(st, gone)
    ensures Absent(Run(st, ops), gone)
    decreases |ops|
  {
    if ops != [] {
      assert IsDrop(ops[0]);
      assert Absent(Apply(st, ops[0]), ops[0]);
      assert Absent(st, gone) ==> Absent(Apply(st, ops[0]), gone);
      DropsRemove(Apply(st, ops[0]), ops[1..], gone);
    }
  }

  lemma DeleteDropsAll(names: ObjectNames)
    ensures forall op :: op in DeleteOps(names) ==> IsDrop(op)
    ensures DropMaintenance(names.prefix) in DeleteOps(names) && DropConfigMap(names.configMap) in DeleteOps(names)
    ensures forall k :: DropSecret(names.Secret(k)) in DeleteOps(names)
    ensures forall g :: DropStatefulSet(names.Set(g)) in DeleteOps(names)
  {
  }

  /** A completed delete leaves nothing of the pipeline, whatever the cluster held before. */
  lemma DeleteLeavesNothing(st: ClusterState, names: ObjectNames)
    ensures ViewOf(Run(st, DeleteOps(names)), names) == EMPTY_VIEW
  {
    DeleteDropsAll(names);
    var ops := DeleteOps(names);
    var after := Run(st, ops);
    forall gone | gone in ops ensures Absent(after, gone) { DropsRemove(st, ops, gone); }
    forall k ensures names.Secret(k) !in after.secrets { assert Absent(after, DropSecret(names.Secret(k))); }
    forall g ensures names.Set(g) !in after.statefulSets { assert Absent(after, DropStatefulSet(names.Set(g))); }
    assert Absent(after, DropMaintenance(names.prefix)) && Absent(after, DropConfigMap(names.configMap));
    assert ViewOf(after, names).secrets == map[] && ViewOf(after, names).sets == map[];
  }

  /** A reconcile or delete of one pipeline, cut short after `n` requests. */
  datatype Action =
    | ReconcileAction(pipeline: Pipeline, n: nat)
    | DeleteAction(objects: ObjectNames, n: nat)

  function ActionNames(a: Action): ObjectNames {
    if a.ReconcileAction? then a.pipeline.names else a.objects
  }

  function ActionOps(a: Action): seq<Op> {
    var ops := if a.ReconcileAction? then ReconcileOps(a.pipeline) else DeleteOps(a.objects);
    if a.n <= |ops| then ops[..a.n] else ops
  }

  function History(st: ClusterState, actions: seq<Action>): ClusterState
    decreases |actions|
  {
    if actions == [] then st else History(Run(st, ActionOps(actions[0])), actions[1..])
  }

  lemma ActionOwns(a: Action)
    ensures OwnsAll(ActionNames(a), ActionOps(a))
  {
    if a.ReconcileAction? { ReconcileOwns(a.pipeline); } else { DeleteOwns(a.objects); }
  }

  /** Every action of the history is for a pipeline with other names. */
  ghost predicate Elsewhere(actions: seq<Action>, names: ObjectNames) {
    forall a :: a in actions ==> Disjoint(ActionNames(a), names)
  }

  /** A history of other pipelines, interrupted anywhere, leaves a pipeline's objects alone. */
  lemma {:induction false} OthersLeaveAlone(st: ClusterState, actions: seq<Action>, names: ObjectNames)
    requires Elsewhere(actions, names)
    ensures ViewOf(History(st, actions), names) == ViewOf(st, names)
    decreases |actions|
  {
    if actions != [] {
      var a := actions[0];
      assert a in actions;
      ActionOwns(a);
      Isolation(st, ActionOps(a), ActionNames(a), names);
      OthersLeaveAlone(Run(st, ActionOps(a)), actions[1..], names);
    }
  }

  /**
    After any history of reconciles and deletes, interrupted anywhere, a completed delete
    empties its pipeline, and nothing done for other pipelines afterwards fills it again.
  */
  lemma DeleteAfterAnyHistory(st: ClusterState, before: seq<Action>, after: seq<Action>, names: ObjectNames)
    requires Elsewhere(after, names)
    ensures ViewOf(History(Run(History(st, before), DeleteOps(names)), after), names) == EMPTY_VIEW
  {
    DeleteLeavesNothing(History(st, before), names);
    OthersLeaveAlone(Run(History(st, before), DeleteOps(names)), after, names);
  }

  /** Secrets that are not the pipeline's, such as the shared ones, are never touched. */
  lemma {:induction false} SharedKept(st: ClusterState, ops: seq<Op>, names: ObjectNames, shared: string)
    requires OwnsAll(names, ops) && forall k :: names.Secret(k) != shared
    ensures shared in Run(st, ops).secrets <==> shared in st.secrets
    ensures shared in st.secrets ==> Run(st, ops).secrets[shared] == st.secrets[shared]
    decreases |ops|
  {
    if ops != [] {
      assert ops[0] in ops;
      SharedKept(Apply(st, ops[0]), ops[1..], names, shared);
    }
  }

  // The same for the names that validated tenants get.

  /** The action is for another pipeline of a validated tenant. */
  ghost predicate ForOther(a: Action, tenant: string, id: int) {
    exists t, i :: ValidTenant(t) && (t != tenant || i != id) && ActionNames(a) == NamesOf(Prefix(t, i))
  }

  lemma OthersElsewhere(actions: seq<Action>, tenant: string, id: int)
    requires ValidTenant(tenant) && forall a :: a in actions ==> ForOther(a, tenant, id)
    ensures Elsewhere(actions, NamesOf(Prefix(tenant, id)))
  {
    forall a | a in actions ensures Disjoint(ActionNames(a), NamesOf(Prefix(tenant, id))) {
      var t, i :| ValidTenant(t) && (t != tenant || i != id) && ActionNames(a) == NamesOf(Prefix(t, i));
      NamesDisjoint(t, i, tenant, id);
    }
  }

  /** For validated tenants a completed delete empties the pipeline and other pipelines leave it empty. */
  lemma ValidatedDelete(st: ClusterState, before: seq<Action>, after: seq<Action>, tenant: string, id: int)
    requires ValidTenant(tenant) && forall a :: a in after ==> ForOther(a, tenant, id)
    ensures var names := NamesOf(Prefix(tenant, id));
            ViewOf(History(Run(History(st, before), DeleteOps(names)), after), names) == EMPTY_VIEW
  {
    OthersElsewhere(after, tenant, id);
    DeleteAfterAnyHistory(st, before, after, NamesOf(Prefix(tenant, id)));
  }

  /** For validated tenants no history of other pipelines, interrupted anywhere, changes a pipeline's objects. */
  lemma ValidatedIsolation(st: ClusterState, actions: seq<Action>, tenant: string, id: int)
    requires ValidTenant(tenant) && forall a :: a in actions ==> ForOther(a, tenant, id)
    ensures ViewOf(History(st, actions), NamesOf(Prefix(tenant, id))) == ViewOf(st, NamesOf(Prefix(tenant, id)))
  {
    OthersElsewhere(actions, tenant, id);
    OthersLeaveAlone(st, actions, NamesOf(Prefix(tenant, id)));
  }

  /** For validated tenants the pod's required references resolve after a reconcile, Iceberg REST as before. */
  lemma ValidatedReconcile(st: ClusterState, p: Pipeline, tenant: string, id: int)
    requires ValidTenant(tenant) && p.names == NamesOf(Prefix(tenant, id))
    ensures RefsOk(Run(st, ReconcileOps(p)), ContainerEnv(p)) <==>
            !p.destination.IcebergRest? || RefsOk(st, ContainerEnv(p))
  {
    NamesDistinct(tenant, id);
    ReconcileResolves(st, p);
  }

  /** The secrets every pod may refer to. */
  predicate IsShared(name: string) {
    name == "replicator-sentry-dsn" || name == "supabase-api-key" || name == "replicator-configcat-sdk-key"
  }

  lemma SharedHasNoDigits(name: string)
    requires IsShared(name)
    ensures NoDigits(name)
  {
  }

  /** No action, interrupted anywhere, for any pipeline changes one of them. */
  lemma SharedSecretsKept(st: ClusterState, a: Action, tenant: string, id: int, name: string)
    requires ActionNames(a) == NamesOf(Prefix(tenant, id)) && IsShared(name)
    ensures name in Run(st, ActionOps(a)).secrets <==> name in st.secrets
    ensures name in st.secrets ==> Run(st, ActionOps(a)).secrets[name] == st.secrets[name]
  {
    SharedHasNoDigits(name);
    forall k ensures ActionNames(a).Secret(k) != name { SharedNameDiffers(tenant, id, k, name); }
    ActionOwns(a);
    SharedKept(st, ActionOps(a), ActionNames(a), name);
  }
}
