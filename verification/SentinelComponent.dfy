/** One Sentinel instance: what it references, renders and rolls on. */
module SentinelComponent {
  import opened Strings
  import opened Operands
  import ApiComponent

  const COMPONENT_NAME := "sentinel"
  const CONFIG_FILE_KEY := "config.yaml"
  const BROKER_CONFIG_FILE_KEY := "broker.yaml"
  const BROKER_SECRET := "hyperfleet-broker-credentials"
  const BROKER_KEY := "BROKER_RABBITMQ_URL"
  const TOKEN_PATH := "/var/run/secrets/hyperfleet/api-token"

  datatype BrokerInfo = BrokerInfo(brokerType: string, projectID: string)

  const RABBITMQ := "rabbitmq"
  const PUBSUB := "googlepubsub"

  function Name(resourceType: string): string {
    COMPONENT_NAME + "-" + resourceType
  }

  function ResourceName(resourceType: string): string {
    "hyperfleet-sentinel-" + resourceType
  }

  function ConfigMapName(resourceType: string): string {
    ResourceName(resourceType) + "-config"
  }

  function BrokerConfigMapName(resourceType: string): string {
    ResourceName(resourceType) + "-broker-config"
  }

  // ----- the two files -----

  datatype Config = Config(name: string, baseURL: string, auth: bool, topic: string, resourceType: string,
                           hasParent: bool)

  datatype BrokerConfig = RabbitMQ | PubSub(projectID: string)

  /** Only these resource types have a message decision. */
  predicate HasMessageDecision(resourceType: string) {
    resourceType == "nodepools" || resourceType == "clusters" || resourceType == "versions"
    || resourceType == "wifconfigs" || resourceType == "channels"
  }

  function ConfigFor(spec: Spec, namespace: string, resourceType: string, baseURL: string,
                     parentKind: string): Result<Config> {
    if !HasMessageDecision(resourceType) then Failed
    else Ok(Config(ResourceName(resourceType), baseURL, ApiComponent.AuthEnabled(spec),
                   namespace + "-" + resourceType, resourceType, parentKind != ""))
  }

  function BrokerConfigFor(broker: BrokerInfo): Result<BrokerConfig> {
    if broker.brokerType == PUBSUB then
      if broker.projectID == "" then Failed else Ok(PubSub(broker.projectID))
    else if broker.brokerType == RABBITMQ then Ok(RabbitMQ)
    else Failed
  }

  // ----- references -----

  function ReferencedSecrets(broker: BrokerInfo): seq<SecretReference> {
    if broker.brokerType == RABBITMQ then [SecretReference("broker", BROKER_SECRET)] else []
  }

  function Rollout(resourceType: string): RolloutTarget {
    RolloutTarget([ConfigEntry(ConfigMapName(resourceType), CONFIG_FILE_KEY),
                   ConfigEntry(BrokerConfigMapName(resourceType), BROKER_CONFIG_FILE_KEY)],
                  ResourceName(resourceType))
  }

  // ----- the Deployment -----

  /** `deployment`: the broker variable and the token volume are appended under conditions. */
  method BuildDeployment(spec: Spec, image: string, namespace: string, resourceType: string, brokerType: string)
      returns (d: Operand)
    ensures d == DeploymentFor(spec, image, namespace, resourceType, brokerType)
  {
    var env := [Literal("BROKER_CONFIG_FILE", "/etc/hyperfleet/broker.yaml")];
    if brokerType == RABBITMQ {
      env := env + [FromSecret("BROKER_RABBITMQ_URL", BROKER_SECRET, BROKER_KEY)];
    }
    var mounts := [Mount("config", "/etc/hyperfleet/config.yaml", CONFIG_FILE_KEY),
                   Mount("broker-config", "/etc/hyperfleet/broker.yaml", BROKER_CONFIG_FILE_KEY),
                   Mount("tmp", "/tmp", "")];
    var volumes := [ConfigMapVolume("config", ConfigMapName(resourceType)),
                    ConfigMapVolume("broker-config", BrokerConfigMapName(resourceType)),
                    EmptyDir("tmp")];
    if ApiComponent.AuthEnabled(spec) {
      volumes := volumes + [TokenVolume("hyperfleet-api-token", spec.auth.audience)];
      mounts := mounts + [Mount("hyperfleet-api-token", TOKEN_PATH, "")];
    }
    assert env == Environment(brokerType) && mounts == Mounts(spec) && volumes == Volumes(spec, resourceType);
    d := Deployment(namespace, ResourceName(resourceType), "", map[], Some(1),
      PodTemplate(map[], [], [Container("sentinel", image, env, mounts)], volumes));
  }

  function Environment(brokerType: string): seq<EnvVar> {
    [Literal("BROKER_CONFIG_FILE", "/etc/hyperfleet/broker.yaml")]
    + if brokerType == RABBITMQ then [FromSecret("BROKER_RABBITMQ_URL", BROKER_SECRET, BROKER_KEY)] else []
  }

  function Volumes(spec: Spec, resourceType: string): seq<Volume> {
    [ConfigMapVolume("config", ConfigMapName(resourceType)),
     ConfigMapVolume("broker-config", BrokerConfigMapName(resourceType)), EmptyDir("tmp")]
    + if ApiComponent.AuthEnabled(spec) then [TokenVolume("hyperfleet-api-token", spec.auth.audience)] else []
  }

  function Mounts(spec: Spec): seq<Mount> {
    [Mount("config", "/etc/hyperfleet/config.yaml", CONFIG_FILE_KEY),
     Mount("broker-config", "/etc/hyperfleet/broker.yaml", BROKER_CONFIG_FILE_KEY), Mount("tmp", "/tmp", "")]
    + if ApiComponent.AuthEnabled(spec) then [Mount("hyperfleet-api-token", TOKEN_PATH, "")] else []
  }

  function DeploymentFor(spec: Spec, image: string, namespace: string, resourceType: string,
                         brokerType: string): Operand {
    Deployment(namespace, ResourceName(resourceType), "", map[], Some(1),
      PodTemplate(map[], [], [Container("sentinel", image, Environment(brokerType), Mounts(spec))],
                  Volumes(spec, resourceType)))
  }

  /** For every spec, broker and resource type, the pods refer to exactly the Secrets and
      exactly the ConfigMaps that are hashed. */
  lemma ReferencesMatch(spec: Spec, image: string, namespace: string, resourceType: string, broker: BrokerInfo)
    ensures var t := DeploymentFor(spec, image, namespace, resourceType, broker.brokerType).template;
            && SecretsOf(t) == SecretNames(ReferencedSecrets(broker))
            && ConfigMapsOf(t) == ConfigMapNames(Rollout(resourceType))
  {
    var d := DeploymentFor(spec, image, namespace, resourceType, broker.brokerType);
    var t := d.template;
    var c := t.containers[0];
    forall s ensures s in SecretsOf(t) <==> s in SecretNames(ReferencedSecrets(broker)) {
      if s in SecretNames(ReferencedSecrets(broker)) {
        var e := FromSecret("BROKER_RABBITMQ_URL", BROKER_SECRET, BROKER_KEY);
        assert e in c.env && s in SecretOfEnv(e) && c in t.containers;
      }
      if s in SecretsOf(t) {
        assert forall v | v in t.volumes :: SecretOfVolume(v) == {};
        var c', e :| c' in t.containers && e in c'.env && s in SecretOfEnv(e);
        assert SecretReference("broker", BROKER_SECRET) in ReferencedSecrets(broker);
      }
    }
    var r := Rollout(resourceType);
    assert t.volumes[0] in t.volumes && t.volumes[1] in t.volumes;
    assert r.configEntries[0] in r.configEntries && r.configEntries[1] in r.configEntries;
    forall m ensures m in ConfigMapsOf(t) <==> m in ConfigMapNames(r) {
    }
  }

  // ----- Render -----

  function Render(yaml: Config -> string, brokerYaml: BrokerConfig -> string, spec: Spec, image: string,
                  namespace: string,
                  resourceType: string, baseURL: string, broker: BrokerInfo, parentKind: string): Result<seq<Operand>>
  {
    if image == "" then Failed else
    match ConfigFor(spec, namespace, resourceType, baseURL, parentKind)
    case Failed => Failed
    case Ok(cfg) =>
      match BrokerConfigFor(broker)
      case Failed => Failed
      case Ok(brokerCfg) => Ok([
        Plain(ServiceAccountKind, namespace, ResourceName(resourceType), "", ""),
        ConfigMap(namespace, ConfigMapName(resourceType), "", map[CONFIG_FILE_KEY := yaml(cfg)]),
        ConfigMap(namespace, BrokerConfigMapName(resourceType), "",
                  map[BROKER_CONFIG_FILE_KEY := brokerYaml(brokerCfg)]),
        Plain(NetworkPolicyKind, namespace, ResourceName(resourceType), "", ""),
        DeploymentFor(spec, image, namespace, resourceType, broker.brokerType)])
  }

  /** A usable broker: RabbitMQ, or Pub/Sub with a project. */
  predicate BrokerUsable(broker: BrokerInfo) {
    broker.brokerType == RABBITMQ || (broker.brokerType == PUBSUB && broker.projectID != "")
  }

  /** Rendering fails exactly on a missing image, an unknown resource type or an unusable
      broker; the spec, the namespace and the URLs never make it fail. */
  lemma RenderFailsIff(yaml: Config -> string, brokerYaml: BrokerConfig -> string, spec: Spec, image: string,
                       namespace: string,
                       resourceType: string, baseURL: string, broker: BrokerInfo, parentKind: string)
    ensures Render(yaml, brokerYaml, spec, image, namespace, resourceType, baseURL, broker, parentKind).Failed? <==>
            image == "" || !HasMessageDecision(resourceType) || !BrokerUsable(broker)
  {
  }
}
