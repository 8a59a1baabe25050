/**
  Names of the Kubernetes objects of a pipeline
  (crates/etl-api/src/k8s/http.rs, crates/etl-api/src/k8s/core.rs,
  crates/etl-api/src/routes/mod.rs). Every object is named from
  `{tenant}-{replicator id}` and a suffix; isolation between pipelines is the
  injectivity of that naming.
*/
module K8sNames {
  import opened Decimal

  const MAX_TENANT_ID_LEN := 20
  const MAX_LABEL_LEN := 63
  const CONTROLLER_REVISION_HASH_LEN := 10
  const I64_MIN := -0x8000_0000_0000_0000
  const I64_MAX := 0x7FFF_FFFF_FFFF_FFFF

  predicate IsAlnum(c: char) {
    'a' <= c <= 'z' || IsDigit(c)
  }

  predicate IsNameChar(c: char) {
    IsAlnum(c) || c == '-'
  }

  /** `validate_tenant_id` accepts. */
  predicate ValidTenant(tenant: string) {
    && 0 < |tenant| <= MAX_TENANT_ID_LEN
    && IsAlnum(tenant[0])
    && tenant[|tenant| - 1] != '-'
    && forall i :: 0 <= i < |tenant| ==> IsNameChar(tenant[i])
  }

  predicate IsI64(i: int) {
    I64_MIN <= i <= I64_MAX
  }

  function Prefix(tenant: string, id: int): (p: string)
    ensures p != [] && IsDigit(p[|p| - 1])
  {
    tenant + "-" + OfInt(id)
  }

  /** What stands before the last dash of a prefix: the tenant, and the sign's dash if any. */
  function BeforeLastDash(tenant: string, id: int): string {
    if id < 0 then tenant + "-" else tenant
  }

  function Magnitude(i: int): nat {
    if i < 0 then -i else i
  }

  lemma PrefixSplit(tenant: string, id: int)
    ensures Prefix(tenant, id) == BeforeLastDash(tenant, id) + "-" + OfNat(Magnitude(id))
  {
  }

  /** A string splits at its last dash in one way. */
  lemma LastDashUnique(a: string, b: string, c: string, d: string)
    requires AllDigits(b) && AllDigits(d)
    requires a + "-" + b == c + "-" + d
    ensures a == c && b == d
  {
    var s := a + "-" + b;
    assert s[|a|] == '-' && s[|c|] == '-';
    assert forall i :: |a| < i < |s| ==> s[i] == b[i - |a| - 1];
    assert forall i :: |c| < i < |s| ==> s[i] == d[i - |c| - 1];
    assert a == s[..|a|] && c == s[..|c|];
    assert b == s[|a| + 1..] && d == s[|c| + 1..];
  }

  /**
    Two prefixes agree exactly when tenant and id agree, or when one tenant is the
    other with a dash appended and the ids are opposite.
  */
  lemma PrefixCollision(t1: string, i1: int, t2: string, i2: int)
    ensures Prefix(t1, i1) == Prefix(t2, i2) <==>
      || (t1 == t2 && i1 == i2)
      || (t1 == t2 + "-" && i1 > 0 && i2 == -i1)
      || (t2 == t1 + "-" && i2 > 0 && i1 == -i2)
  {
    PrefixSplit(t1, i1);
    PrefixSplit(t2, i2);
    SameBeforeLastDash(t1, i1, t2, i2);
    if Prefix(t1, i1) == Prefix(t2, i2) {
      LastDashUnique(BeforeLastDash(t1, i1), OfNat(Magnitude(i1)), BeforeLastDash(t2, i2), OfNat(Magnitude(i2)));
      OfNatInjective(Magnitude(i1), Magnitude(i2));
    }
  }

  lemma SameBeforeLastDash(t1: string, i1: int, t2: string, i2: int)
    ensures BeforeLastDash(t1, i1) == BeforeLastDash(t2, i2) && Magnitude(i1) == Magnitude(i2) <==>
      || (t1 == t2 && i1 == i2)
      || (t1 == t2 + "-" && i1 > 0 && i2 == -i1)
      || (t2 == t1 + "-" && i2 > 0 && i1 == -i2)
  {
    assert (t1 + "-")[..|t1|] == t1 && (t2 + "-")[..|t2|] == t2;
  }

  /** Validated tenants never end in a dash, so their prefixes are all different. */
  lemma PrefixInjective(t1: string, i1: int, t2: string, i2: int)
    requires ValidTenant(t1) && ValidTenant(t2)
    requires Prefix(t1, i1) == Prefix(t2, i2)
    ensures t1 == t2 && i1 == i2
  {
    PrefixCollision(t1, i1, t2, i2);
    assert (t1 + "-")[|t1|] == '-' && (t2 + "-")[|t2|] == '-';
  }

  predicate NoDigits(s: string) {
    forall i :: 0 <= i < |s| ==> !IsDigit(s[i])
  }

  function Named(prefix: string, suffix: string): string {
    prefix + "-" + suffix
  }

  /** Cutting a name after its last digit gives back prefix and suffix. */
  lemma NamedInjective(p1: string, s1: string, p2: string, s2: string)
    requires p1 != [] && IsDigit(p1[|p1| - 1]) && NoDigits(s1)
    requires p2 != [] && IsDigit(p2[|p2| - 1]) && NoDigits(s2)
    requires Named(p1, s1) == Named(p2, s2)
    ensures p1 == p2 && s1 == s2
  {
    var n := Named(p1, s1);
    assert n[|p1| - 1] == p1[|p1| - 1] && n[|p2| - 1] == p2[|p2| - 1];
    assert forall i :: |p1| < i < |n| ==> n[i] == s1[i - |p1| - 1];
    assert forall i :: |p2| < i < |n| ==> n[i] == s2[i - |p2| - 1];
    assert n[|p1|] == '-' && n[|p2|] == '-';
    assert p1 == n[..|p1|] && p2 == n[..|p2|];
    assert s1 == n[|p1| + 1..] && s2 == n[|p2| + 1..];
  }

  datatype SecretKind = PostgresSecret | BigQuerySecret | IcebergSecret | ClickHouseSecret | DucklakeSecret

  function SecretSuffix(k: SecretKind): string {
    match k
    case PostgresSecret => "postgres-password"
    case BigQuerySecret => "bq-service-account-key"
    case IcebergSecret => "iceberg"
    case ClickHouseSecret => "clickhouse-password"
    case DucklakeSecret => "ducklake"
  }

  lemma SecretSuffixPlain(k: SecretKind)
    ensures NoDigits(SecretSuffix(k))
  {
    match k
    case PostgresSecret => assert NoDigits("postgres-password");
    case BigQuerySecret => assert NoDigits("bq-service-account-key");
    case IcebergSecret => assert NoDigits("iceberg");
    case ClickHouseSecret => assert NoDigits("clickhouse-password");
    case DucklakeSecret => assert NoDigits("ducklake");
  }

  function SecretName(prefix: string, k: SecretKind): string {
    Named(prefix, SecretSuffix(k))
  }

  datatype Generation = CurrentName | LegacyName

  function StatefulSetSuffix(g: Generation): (s: string)
    ensures NoDigits(s)
  {
    match g
    case CurrentName => "replicator"
    case LegacyName => "replicator-stateful-set"
  }

  function StatefulSetName(prefix: string, g: Generation): string {
    Named(prefix, StatefulSetSuffix(g))
  }

  function PodName(prefix: string, g: Generation): string {
    StatefulSetName(prefix, g) + "-0"
  }

  function ConfigMapName(prefix: string): string {
    Named(prefix, "replicator-config")
  }

  function AppName(prefix: string): string {
    Named(prefix, "replicator-app")
  }

  lemma SecretSuffixInjective(a: SecretKind, b: SecretKind)
    requires SecretSuffix(a) == SecretSuffix(b)
    ensures a == b
  {
  }

  /** No two secrets of any two pipelines share a name. */
  lemma SecretNameInjective(t1: string, i1: int, k1: SecretKind, t2: string, i2: int, k2: SecretKind)
    requires ValidTenant(t1) && ValidTenant(t2)
    requires SecretName(Prefix(t1, i1), k1) == SecretName(Prefix(t2, i2), k2)
    ensures t1 == t2 && i1 == i2 && k1 == k2
  {
    SecretSuffixPlain(k1);
    SecretSuffixPlain(k2);
    NamedInjective(Prefix(t1, i1), SecretSuffix(k1), Prefix(t2, i2), SecretSuffix(k2));
    SecretSuffixInjective(k1, k2);
    PrefixInjective(t1, i1, t2, i2);
  }

  /** No two StatefulSets of any two pipelines share a name, current or legacy. */
  lemma StatefulSetNameInjective(t1: string, i1: int, g1: Generation, t2: string, i2: int, g2: Generation)
    requires ValidTenant(t1) && ValidTenant(t2)
    requires StatefulSetName(Prefix(t1, i1), g1) == StatefulSetName(Prefix(t2, i2), g2)
    ensures t1 == t2 && i1 == i2 && g1 == g2
  {
    NamedInjective(Prefix(t1, i1), StatefulSetSuffix(g1), Prefix(t2, i2), StatefulSetSuffix(g2));
    assert |StatefulSetSuffix(g1)| == |StatefulSetSuffix(g2)|;
    PrefixInjective(t1, i1, t2, i2);
  }

  /** No two pods of any two pipelines share a name. */
  lemma PodNameInjective(t1: string, i1: int, g1: Generation, t2: string, i2: int, g2: Generation)
    requires ValidTenant(t1) && ValidTenant(t2)
    requires PodName(Prefix(t1, i1), g1) == PodName(Prefix(t2, i2), g2)
    ensures t1 == t2 && i1 == i2 && g1 == g2
  {
    var a, b := StatefulSetName(Prefix(t1, i1), g1), StatefulSetName(Prefix(t2, i2), g2);
    assert a == (a + "-0")[..|a|] && b == (b + "-0")[..|b|];
    StatefulSetNameInjective(t1, i1, g1, t2, i2, g2);
  }

  /** All object names of one pipeline. */
  datatype ObjectNames = ObjectNames(
    prefix: string,
    postgres: string,
    bigQuery: string,
    iceberg: string,
    clickHouse: string,
    ducklake: string,
    configMap: string,
    current: string,
    legacy: string
  ) {
    function Secret(k: SecretKind): string {
      match k
      case PostgresSecret => postgres
      case BigQuerySecret => bigQuery
      case IcebergSecret => iceberg
      case ClickHouseSecret => clickHouse
      case DucklakeSecret => ducklake
    }

    function Set(g: Generation): string {
      match g case CurrentName => current case LegacyName => legacy
    }
  }

  function NamesOf(prefix: string): ObjectNames {
    ObjectNames(prefix, SecretName(prefix, PostgresSecret), SecretName(prefix, BigQuerySecret),
                SecretName(prefix, IcebergSecret), SecretName(prefix, ClickHouseSecret),
                SecretName(prefix, DucklakeSecret), ConfigMapName(prefix),
                StatefulSetName(prefix, CurrentName), StatefulSetName(prefix, LegacyName))
  }

  /** Names without a digit, such as those of the shared secrets, belong to no pipeline. */
  lemma SharedNameDiffers(tenant: string, id: int, k: SecretKind, shared: string)
    requires NoDigits(shared)
    ensures NamesOf(Prefix(tenant, id)).Secret(k) != shared
  {
    var p := Prefix(tenant, id);
    assert NamesOf(p).Secret(k) == Named(p, SecretSuffix(k));
    assert Named(p, SecretSuffix(k))[|p| - 1] == p[|p| - 1];
  }

  lemma NamesBySuffix(prefix: string, k: SecretKind, g: Generation)
    ensures NamesOf(prefix).Secret(k) == SecretName(prefix, k)
    ensures NamesOf(prefix).Set(g) == StatefulSetName(prefix, g)
  {
  }

  ghost predicate Distinct(names: ObjectNames) {
    && (forall j, k :: names.Secret(j) == names.Secret(k) ==> j == k)
    && names.current != names.legacy
  }

  ghost predicate Disjoint(m: ObjectNames, n: ObjectNames) {
    && (forall j, k :: m.Secret(j) != n.Secret(k))
    && (forall g, h :: m.Set(g) != n.Set(h))
    && m.configMap != n.configMap && m.prefix != n.prefix
  }

  /** A pipeline's own names differ. */
  lemma NamesDistinct(tenant: string, id: int)
    requires ValidTenant(tenant)
    ensures Distinct(NamesOf(Prefix(tenant, id)))
  {
  }

  lemma SecretsDisjoint(t1: string, i1: int, t2: string, i2: int, j: SecretKind, k: SecretKind)
    requires ValidTenant(t1) && ValidTenant(t2) && (t1 != t2 || i1 != i2)
    ensures NamesOf(Prefix(t1, i1)).Secret(j) != NamesOf(Prefix(t2, i2)).Secret(k)
  {
    var p, q := Prefix(t1, i1), Prefix(t2, i2);
    NamesBySuffix(p, j, CurrentName);
    NamesBySuffix(q, k, CurrentName);
    if SecretName(p, j) == SecretName(q, k) { SecretNameInjective(t1, i1, j, t2, i2, k); }
  }

  lemma SetsDisjoint(t1: string, i1: int, t2: string, i2: int, g: Generation, h: Generation)
    requires ValidTenant(t1) && ValidTenant(t2) && (t1 != t2 || i1 != i2)
    ensures NamesOf(Prefix(t1, i1)).Set(g) != NamesOf(Prefix(t2, i2)).Set(h)
  {
    var p, q := Prefix(t1, i1), Prefix(t2, i2);
    NamesBySuffix(p, PostgresSecret, g);
    NamesBySuffix(q, PostgresSecret, h);
    if StatefulSetName(p, g) == StatefulSetName(q, h) { StatefulSetNameInjective(t1, i1, g, t2, i2, h); }
  }

  lemma PrefixesDisjoint(t1: string, i1: int, t2: string, i2: int)
    requires ValidTenant(t1) && ValidTenant(t2) && (t1 != t2 || i1 != i2)
    ensures Prefix(t1, i1) != Prefix(t2, i2)
  {
    if Prefix(t1, i1) == Prefix(t2, i2) { PrefixInjective(t1, i1, t2, i2); }
  }

  lemma ConfigMapsDisjoint(p: string, q: string)
    requires p != q && p != [] && IsDigit(p[|p| - 1]) && q != [] && IsDigit(q[|q| - 1])
    ensures ConfigMapName(p) != ConfigMapName(q)
  {
    if ConfigMapName(p) == ConfigMapName(q) {
      NamedInjective(p, "replicator-config", q, "replicator-config");
    }
  }

  /** No object of any kind has the same name in two pipelines. */
  lemma NamesDisjoint(t1: string, i1: int, t2: string, i2: int)
    requires ValidTenant(t1) && ValidTenant(t2) && (t1 != t2 || i1 != i2)
    ensures Disjoint(NamesOf(Prefix(t1, i1)), NamesOf(Prefix(t2, i2)))
  {
    var m, n := NamesOf(Prefix(t1, i1)), NamesOf(Prefix(t2, i2));
    forall j, k ensures m.Secret(j) != n.Secret(k) { SecretsDisjoint(t1, i1, t2, i2, j, k); }
    forall g, h ensures m.Set(g) != n.Set(h) { SetsDisjoint(t1, i1, t2, i2, g, h); }
    PrefixesDisjoint(t1, i1, t2, i2);
    ConfigMapsDisjoint(Prefix(t1, i1), Prefix(t2, i2));
  }

  /** A label value in the sense of section 2.1 of RFC 1123. */
  predicate IsLabel(s: string) {
    && 0 < |s| <= MAX_LABEL_LEN
    && IsAlnum(s[0]) && IsAlnum(s[|s| - 1])
    && forall i :: 0 <= i < |s| ==> IsNameChar(s[i])
  }

  lemma PowersUpTo19()
    ensures Pow10(18) == 1000000000000000000 && Pow10(19) == 10000000000000000000
  {
    assert Pow10(5) == 100000;
    assert Pow10(10) == 10000000000;
    assert Pow10(15) == 1000000000000000;
  }

  lemma IdLength(id: int)
    requires IsI64(id)
    ensures |OfInt(id)| <= 20
  {
    PowersUpTo19();
    OfNatLength(Magnitude(id), 19);
  }

  lemma PrefixShape(tenant: string, id: int)
    requires ValidTenant(tenant) && IsI64(id)
    ensures var p := Prefix(tenant, id);
      |p| <= 41 && IsAlnum(p[0]) && forall i :: 0 <= i < |p| ==> IsNameChar(p[i])
  {
    IdLength(id);
    var p := Prefix(tenant, id);
    forall i | 0 <= i < |p| ensures IsNameChar(p[i]) {
      if i > |tenant| { assert p[i] == OfInt(id)[i - |tenant| - 1]; }
    }
  }

  /** App-name labels, and StatefulSet names with a controller revision hash, are valid label values. */
  lemma NamesAreLabels(tenant: string, id: int, hash: string)
    requires ValidTenant(tenant) && IsI64(id)
    requires |hash| == CONTROLLER_REVISION_HASH_LEN && forall i :: 0 <= i < |hash| ==> IsAlnum(hash[i])
    ensures IsLabel(AppName(Prefix(tenant, id)))
    ensures IsLabel(Named(StatefulSetName(Prefix(tenant, id), CurrentName), hash))
  {
    PrefixShape(tenant, id);
    var p := Prefix(tenant, id);
    NamedShape(p, "replicator-app");
    NamedShape(p, StatefulSetSuffix(CurrentName));
    NamedShape(StatefulSetName(p, CurrentName), hash);
  }

  lemma NamedShape(p: string, s: string)
    requires p != [] && IsAlnum(p[0]) && s != [] && IsAlnum(s[|s| - 1])
    requires forall i :: 0 <= i < |p| ==> IsNameChar(p[i])
    requires forall i :: 0 <= i < |s| ==> IsNameChar(s[i])
    ensures var n := Named(p, s);
      && |n| == |p| + 1 + |s| && n[0] == p[0] && n[|n| - 1] == s[|s| - 1]
      && forall i :: 0 <= i < |n| ==> IsNameChar(n[i])
  {
  }

  /** The bound is met exactly by a full-length tenant and the smallest id; the legacy name would not fit. */
  lemma LabelBoundTight(tenant: string, hash: string)
    requires ValidTenant(tenant) && |tenant| == MAX_TENANT_ID_LEN && |hash| == CONTROLLER_REVISION_HASH_LEN
    ensures |Named(StatefulSetName(Prefix(tenant, I64_MIN), CurrentName), hash)| == MAX_LABEL_LEN
    ensures |Named(StatefulSetName(Prefix(tenant, I64_MIN), LegacyName), hash)| > MAX_LABEL_LEN
  {
    PowersUpTo19();
    DigitsOf(Magnitude(I64_MIN), 19);
  }

  /** A number of at least `10^(k - 1)` prints in at least `k` digits. */
  lemma {:induction false} DigitsAtLeast(n: nat, k: nat)
    requires 0 < k && Pow10(k - 1) <= n
    ensures k <= |OfNat(n)|
  {
    if k > 1 {
      assert Pow10(k - 1) == 10 * Pow10(k - 2);
      DigitsAtLeast(n / 10, k - 1);
    }
  }

  lemma DigitsOf(n: nat, k: nat)
    requires 0 < k && Pow10(k - 1) <= n < Pow10(k)
    ensures |OfNat(n)| == k
  {
    OfNatLength(n, k);
    DigitsAtLeast(n, k);
  }
}
