/** A bundle's ordered component set and the dispatch to the two kinds of component. */
module Bundle {
  import opened Strings
  import opened Operands
  import A = ApiComponent
  import S = SentinelComponent

  datatype Component =
    | Api(image: string, namespace: string, entities: seq<A.EntityDescriptor>, resolvedJWKSURL: string)
    | Sentinel(image: string, namespace: string, resourceType: string, apiBaseURL: string,
               broker: S.BrokerInfo, parentKind: string)

  datatype Config = Config(apiImage: string, sentinelImage: string, namespace: string, broker: Option<S.BrokerInfo>)

  /** The YAML marshallers of the three rendered files. */
  datatype Marshal = Marshal(api: A.Config -> string, sentinel: S.Config -> string, broker: S.BrokerConfig -> string)

  // ----- the component contract -----

  function Name(c: Component): string {
    match c
    case Api(_, _, _, _) => A.COMPONENT_NAME
    case Sentinel(_, _, resourceType, _, _, _) => S.Name(resourceType)
  }

  function Rollout(c: Component): RolloutTarget {
    match c
    case Api(_, _, _, _) => A.ROLLOUT
    case Sentinel(_, _, resourceType, _, _, _) => S.Rollout(resourceType)
  }

  function ReferencedSecrets(c: Component, spec: Spec): seq<SecretReference> {
    match c
    case Api(_, _, _, _) => A.ReferencedSecrets(spec)
    case Sentinel(_, _, _, _, broker, _) => S.ReferencedSecrets(broker)
  }

  function Render(m: Marshal, c: Component, spec: Spec): Result<seq<Operand>> {
    match c
    case Api(image, ns, entities, url) => A.Render(m.api, spec, image, ns, entities, url)
    case Sentinel(image, ns, resourceType, url, broker, parent) =>
      S.Render(m.sentinel, m.broker, spec, image, ns, resourceType, url, broker, parent)
  }

  /** How the component's condition messages name its Deployment. */
  function Subject(c: Component): string {
    match c
    case Api(_, _, _, _) => "the API"
    case Sentinel(_, _, resourceType, _, _, _) => "the Sentinel (" + resourceType + ")"
  }

  /** The pod template `Render` puts into the component's Deployment. */
  function Template(c: Component, spec: Spec): PodTemplate {
    match c
    case Api(image, ns, _, _) => A.DeploymentFor(spec, if image == "" then A.DEFAULT_IMAGE else image, ns).template
    case Sentinel(image, ns, resourceType, _, broker, _) =>
      S.DeploymentFor(spec, image, ns, resourceType, broker.brokerType).template
  }

  function DeploymentKey(c: Component): Key {
    Key(DeploymentKind, c.namespace, Rollout(c).deployment)
  }

  /** The keys of the operands a component renders, the Deployment last. */
  function Keys(c: Component): seq<Key> {
    match c
    case Api(_, ns, _, _) =>
      [Key(Other(ServiceAccountKind), ns, A.RESOURCE_NAME), Key(Other(RoleKind), ns, A.RESOURCE_NAME),
       Key(Other(RoleBindingKind), ns, A.RESOURCE_NAME), Key(ConfigMapKind, ns, A.CONFIG_MAP_NAME),
       Key(Other(ServiceKind), ns, A.RESOURCE_NAME), Key(DeploymentKind, ns, A.RESOURCE_NAME)]
    case Sentinel(_, ns, rt, _, _, _) =>
      [Key(Other(ServiceAccountKind), ns, S.ResourceName(rt)), Key(ConfigMapKind, ns, S.ConfigMapName(rt)),
       Key(ConfigMapKind, ns, S.BrokerConfigMapName(rt)), Key(Other(NetworkPolicyKind), ns, S.ResourceName(rt)),
       Key(DeploymentKind, ns, S.ResourceName(rt))]
  }

  lemma RenderKeys(m: Marshal, c: Component, spec: Spec)
    requires Render(m, c, spec).Ok?
    ensures var objs := Render(m, c, spec).value;
            |objs| == |Keys(c)| && forall i | 0 <= i < |objs| :: KeyOf(objs[i]) == Keys(c)[i]
  {
  }

  /** The Deployment is rendered last, alone of its kind, under the name the rollout target
      gives, and no annotation is set before the controller stamps it. */
  lemma RenderDeployment(m: Marshal, c: Component, spec: Spec)
    requires Render(m, c, spec).Ok?
    ensures var objs := Render(m, c, spec).value;
            var n := |objs| - 1;
            && n >= 0 && objs[n].Deployment? && objs[n].template == Template(c, spec) && objs[n].annotations == map[]
            && KeyOf(objs[n]) == DeploymentKey(c) && objs[n].template.annotations == map[]
            && objs[n].replicas == Some(1)
            && forall i | 0 <= i < n :: !objs[i].Deployment?
  {
  }

  /** What the pods refer to is what `ReferencedSecrets` and `Rollout` declare, for every
      component and every spec. */
  lemma ReferencesMatch(c: Component, spec: Spec)
    ensures SecretsOf(Template(c, spec)) == SecretNames(ReferencedSecrets(c, spec))
    ensures ConfigMapsOf(Template(c, spec)) == ConfigMapNames(Rollout(c))
  {
    match c
    case Api(image, ns, _, _) => A.ReferencesMatch(spec, if image == "" then A.DEFAULT_IMAGE else image, ns);
    case Sentinel(image, ns, resourceType, _, broker, _) => S.ReferencesMatch(spec, image, ns, resourceType, broker);
  }

  /** The roles of one component's references differ. */
  lemma RolesDistinct(c: Component, spec: Spec)
    ensures var refs := ReferencedSecrets(c, spec);
            forall i, j | 0 <= i < j < |refs| :: refs[i].role != refs[j].role
  {
    if c.Api? {
      A.RolesDistinct(spec);
    }
  }

  // ----- resolution -----

  const CLUSTERS := A.EntityDescriptor("Cluster", "clusters", "", "", "ClusterSpec",
    ["validation", "dns", "pullsecret", "hypershift"], 3, 53, true)
  const NODE_POOLS := A.EntityDescriptor("NodePool", "nodepools", "Cluster", "cascade", "NodePoolSpec",
    ["validation", "hypershift"], 3, 15, true)
  const CHANNELS := A.EntityDescriptor("Channel", "channels", "", "", "ChannelSpec", [], 0, 0, false)
  const VERSIONS := A.EntityDescriptor("Version", "versions", "Channel", "restrict", "VersionSpec", [], 0, 0, false)
  const WIF_CONFIGS := A.EntityDescriptor("WifConfig", "wifconfigs", "", "", "WifConfigSpec", [], 0, 0, false)

  const CLOUD_CAPI_ENTITIES := [CLUSTERS, NODE_POOLS, CHANNELS, VERSIONS, WIF_CONFIGS]

  /** A bundle without an entity set cannot be resolved: an empty set would serve nothing. */
  function EntitiesForBundle(b: BundleType): Result<seq<A.EntityDescriptor>> {
    if b == CloudCAPI then Ok(CLOUD_CAPI_ENTITIES) else Failed
  }

  function SentinelFor(cfg: Config, e: A.EntityDescriptor, baseURL: string): Component
    requires cfg.broker.Some?
  {
    Sentinel(cfg.sentinelImage, cfg.namespace, e.plural, baseURL, cfg.broker.value, e.parentKind)
  }

  /** The API and one Sentinel per registered entity, wired with the two URLs. */
  function Tier(cfg: Config, entities: seq<A.EntityDescriptor>, baseURL: string, jwksURL: string): (r: seq<Component>)
    requires cfg.broker.Some?
    ensures |r| == 1 + |entities|
  {
    [Api(cfg.apiImage, cfg.namespace, entities, jwksURL)]
    + seq(|entities|, i requires 0 <= i < |entities| => SentinelFor(cfg, entities[i], baseURL))
  }

  function Resolved(b: BundleType, cfg: Config): Result<seq<Component>> {
    match EntitiesForBundle(b)
    case Failed => Failed
    case Ok(entities) => if cfg.broker.None? then Failed else Ok(Tier(cfg, entities, "", ""))
  }

  method SharedTier(b: BundleType, cfg: Config) returns (r: Result<seq<Component>>)
    ensures r == Resolved(b, cfg)
  {
    var entities := EntitiesForBundle(b);
    if entities.Failed? {
      return Failed;
    }
    var components := [Api(cfg.apiImage, cfg.namespace, entities.value, "")];
    if cfg.broker.None? {
      return Failed;
    }
    for i := 0 to |entities.value|
      invariant |components| == 1 + i && components[0] == Api(cfg.apiImage, cfg.namespace, entities.value, "")
      invariant forall j | 0 <= j < i :: components[1 + j] == SentinelFor(cfg, entities.value[j], "")
    {
      components := components + [SentinelFor(cfg, entities.value[i], "")];
    }
    assert components == Tier(cfg, entities.value, "", "");
    return Ok(components);
  }

  method Resolve(b: BundleType, cfg: Config) returns (r: Result<seq<Component>>)
    ensures r == Resolved(b, cfg)
  {
    var shared := SharedTier(b, cfg);
    if shared.Failed? {
      return Failed;
    }
    var bundleSpecific: seq<Component> := [];
    r := Ok(shared.value + bundleSpecific);
    assert shared.value + bundleSpecific == shared.value;
  }

  // ----- wiring -----

  function WithJWKSURL(cs: seq<Component>, url: string): (r: seq<Component>)
    ensures |r| == |cs|
  {
    if |cs| == 0 then []
    else if cs[0].Api? then [cs[0].(resolvedJWKSURL := url)] + cs[1..]
    else [cs[0]] + WithJWKSURL(cs[1..], url)
  }

  function WithBaseURL(cs: seq<Component>, url: string): (r: seq<Component>)
    ensures |r| == |cs|
    ensures forall i | 0 <= i < |r| :: r[i] == if cs[i].Sentinel? then cs[i].(apiBaseURL := url) else cs[i]
  {
    seq(|cs|, i requires 0 <= i < |cs| => if cs[i].Sentinel? then cs[i].(apiBaseURL := url) else cs[i])
  }

  lemma SplitTail(cs: seq<Component>, i: nat)
    requires 0 < i <= |cs|
    ensures cs[1..][i - 1..] == cs[i..] && cs[..i] == [cs[0]] + cs[1..][..i - 1]
  {
  }

  lemma {:induction false} WithJWKSURLSkips(cs: seq<Component>, i: nat, url: string)
    requires i <= |cs| && forall j | 0 <= j < i :: !cs[j].Api?
    ensures WithJWKSURL(cs, url) == cs[..i] + WithJWKSURL(cs[i..], url)
  {
    if i == 0 {
      assert cs[0..] == cs;
    } else {
      SplitTail(cs, i);
      WithJWKSURLSkips(cs[1..], i - 1, url);
    }
  }

  /** Only the first API component is assigned. */
  method SetResolvedJWKSURL(components: array<Component>, url: string)
    modifies components
    ensures components[..] == WithJWKSURL(old(components[..]), url)
  {
    ghost var before := components[..];
    for i := 0 to components.Length
      invariant components[..] == before
      invariant forall j | 0 <= j < i :: !components[j].Api?
    {
      if components[i].Api? {
        WithJWKSURLSkips(before, i, url);
        components[i] := components[i].(resolvedJWKSURL := url);
        assert components[..] == before[..i] + WithJWKSURL(before[i..], url);
        return;
      }
    }
    WithJWKSURLSkips(before, components.Length, url);
    assert before[..components.Length] == before && before[components.Length..] == [];
  }

  /** Every Sentinel is assigned. */
  method SetAPIBaseURL(components: array<Component>, url: string)
    modifies components
    ensures components[..] == WithBaseURL(old(components[..]), url)
  {
    ghost var before := components[..];
    for i := 0 to components.Length
      invariant forall j | i <= j < components.Length :: components[j] == before[j]
      invariant forall j | 0 <= j < i :: components[j] == WithBaseURL(before, url)[j]
    {
      if components[i].Sentinel? {
        components[i] := components[i].(apiBaseURL := url);
      }
    }
  }

  /** Wiring reaches the API and every Sentinel of a resolved tier, in either order, and
      changes nothing else. */
  lemma WiredTier(cfg: Config, entities: seq<A.EntityDescriptor>, base: string, jwks: string)
    requires cfg.broker.Some?
    ensures WithJWKSURL(WithBaseURL(Tier(cfg, entities, "", ""), base), jwks) == Tier(cfg, entities, base, jwks)
    ensures WithBaseURL(WithJWKSURL(Tier(cfg, entities, "", ""), jwks), base) == Tier(cfg, entities, base, jwks)
  {
  }

  // ----- disjoint operands -----

  /** No two components share a name or an operand, and no component renders an operand twice. */
  ghost predicate Disjoint(cs: seq<Component>) {
    && (forall i, j | 0 <= i < j < |cs| :: Name(cs[i]) != Name(cs[j]))
    && (forall i, j, p, q | 0 <= i < |cs| && 0 <= j < |cs| && 0 <= p < |Keys(cs[i])| && 0 <= q < |Keys(cs[j])|
                            && Keys(cs[i])[p] == Keys(cs[j])[q] :: i == j && p == q)
  }

  const BROKER := "-broker"

  ghost predicate Separated(entities: seq<A.EntityDescriptor>) {
    && (forall i, j | 0 <= i < j < |entities| :: entities[i].plural != entities[j].plural)
    && (forall i, j | 0 <= i < |entities| && 0 <= j < |entities| :: entities[i].plural != entities[j].plural + BROKER)
  }

  lemma CancelPrefix(p: string, a: string, b: string)
    ensures p + a == p + b <==> a == b
  {
    assert (p + a)[|p|..] == a && (p + b)[|p|..] == b;
  }

  lemma CancelSuffix(a: string, b: string, s: string)
    ensures a + s == b + s <==> a == b
  {
    if a + s == b + s {
      assert |a| == |b|;
      assert (a + s)[..|a|] == a && (b + s)[..|b|] == b;
    }
  }

  lemma SentinelNames(a: string, b: string)
    ensures S.Name(a) == S.Name(b) <==> a == b
    ensures S.ResourceName(a) == S.ResourceName(b) <==> a == b
    ensures S.Name(a) != A.COMPONENT_NAME && S.ResourceName(a) != A.RESOURCE_NAME
  {
    CancelPrefix(S.COMPONENT_NAME + "-", a, b);
    CancelPrefix("hyperfleet-sentinel-", a, b);
    assert S.Name(a)[0] == 's' && A.COMPONENT_NAME[0] == 'a';
    assert S.ResourceName(a)[11] == 's' && A.RESOURCE_NAME[11] == 'a';
  }

  lemma ConfigMapNamesDiffer(a: string, b: string)
    ensures S.ConfigMapName(a) == S.ConfigMapName(b) <==> a == b
    ensures S.BrokerConfigMapName(a) == S.BrokerConfigMapName(b) <==> a == b
    ensures S.ConfigMapName(a) == S.BrokerConfigMapName(b) <==> a == b + BROKER
    ensures S.ConfigMapName(a) != A.CONFIG_MAP_NAME && S.BrokerConfigMapName(a) != A.CONFIG_MAP_NAME
  {
    SentinelNames(a, b);
    CancelSuffix(S.ResourceName(a), S.ResourceName(b), "-config");
    CancelSuffix(S.ResourceName(a), S.ResourceName(b), "-broker-config");
    assert "-broker-config" == BROKER + "-config";
    assert S.BrokerConfigMapName(b) == (S.ResourceName(b) + BROKER) + "-config";
    CancelSuffix(S.ResourceName(a), S.ResourceName(b) + BROKER, "-config");
    assert S.ResourceName(b) + BROKER == S.ResourceName(b + BROKER);
    SentinelNames(a, b + BROKER);
    assert S.ConfigMapName(a)[11] == 's' && S.BrokerConfigMapName(a)[11] == 's' && A.CONFIG_MAP_NAME[11] == 'a';
  }

  lemma ApiKeys(c: Component, d: Component, p: nat, q: nat)
    requires c.Api? && p < |Keys(c)| && q < |Keys(d)| && Keys(c)[p] == Keys(d)[q]
    ensures d.Api? && p == q
  {
  }

  lemma SentinelKeys(c: Component, d: Component, p: nat, q: nat)
    requires c.Sentinel? && d.Sentinel? && p < |Keys(c)| && q < |Keys(d)| && Keys(c)[p] == Keys(d)[q]
    ensures (c.resourceType == d.resourceType && p == q)
            || c.resourceType == d.resourceType + BROKER || d.resourceType == c.resourceType + BROKER
  {
    SentinelNames(c.resourceType, d.resourceType);
    ConfigMapNamesDiffer(c.resourceType, d.resourceType);
    ConfigMapNamesDiffer(d.resourceType, c.resourceType);
  }

  lemma SeparatedDisjoint(cfg: Config, entities: seq<A.EntityDescriptor>, base: string, jwks: string)
    requires cfg.broker.Some? && Separated(entities)
    ensures Disjoint(Tier(cfg, entities, base, jwks))
  {
    var cs := Tier(cfg, entities, base, jwks);
    forall i, j | 0 <= i < j < |cs| ensures Name(cs[i]) != Name(cs[j]) {
      SentinelNames(cs[j].resourceType, if i == 0 then "" else cs[i].resourceType);
    }
    forall i, j, p, q | 0 <= i < |cs| && 0 <= j < |cs| && 0 <= p < |Keys(cs[i])| && 0 <= q < |Keys(cs[j])|
                        && Keys(cs[i])[p] == Keys(cs[j])[q]
      ensures i == j && p == q
    {
      if i == 0 {
        ApiKeys(cs[i], cs[j], p, q);
      } else if j == 0 {
        ApiKeys(cs[j], cs[i], q, p);
      } else {
        SentinelKeys(cs[i], cs[j], p, q);
        assert cs[i] == SentinelFor(cfg, entities[i - 1], base) && cs[j] == SentinelFor(cfg, entities[j - 1], base);
      }
    }
  }

  /** The component names and operand keys of a tier are pairwise distinct exactly when the
      plurals are pairwise distinct and none is another followed by "-broker". */
  lemma DisjointIff(cfg: Config, entities: seq<A.EntityDescriptor>, base: string, jwks: string)
    requires cfg.broker.Some?
    ensures Disjoint(Tier(cfg, entities, base, jwks)) <==> Separated(entities)
  {
    var cs := Tier(cfg, entities, base, jwks);
    if Separated(entities) {
      SeparatedDisjoint(cfg, entities, base, jwks);
    }
    if Disjoint(cs) {
      forall i, j | 0 <= i < j < |entities| ensures entities[i].plural != entities[j].plural {
        assert Name(cs[i + 1]) != Name(cs[j + 1]);
      }
      forall i, j | 0 <= i < |entities| && 0 <= j < |entities|
        ensures entities[i].plural != entities[j].plural + BROKER
      {
        ConfigMapNamesDiffer(entities[i].plural, entities[j].plural);
        assert cs[i + 1] == SentinelFor(cfg, entities[i], base) && cs[j + 1] == SentinelFor(cfg, entities[j], base);
        assert Keys(cs[i + 1])[1] != Keys(cs[j + 1])[2];
      }
    }
  }

  lemma CloudCAPISeparated()
    ensures Separated(CLOUD_CAPI_ENTITIES)
  {
    assert "clusters"[0] != "nodepools"[0] && "clusters"[1] != "channels"[1];
  }

  lemma EveryEntityDecides()
    ensures forall e | e in CLOUD_CAPI_ENTITIES :: S.HasMessageDecision(e.plural)
  {
  }
}
