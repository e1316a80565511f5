/** The custom resource's spec, the rendered operands and the live objects they become. */
module Operands {
  import opened Strings

  // ----- spec -----

  datatype BundleType = CloudCAPI | OnPremAgent | OtherBundle(name: string)

  /** A nil `enabled` means the schema default. */
  datatype AuthSpec = AuthSpec(enabled: Option<bool>, issuer: string, audience: string, jwkCertSecret: Option<string>)

  datatype Spec = Spec(bundle: BundleType, databaseSecret: string, auth: AuthSpec, tlsSecret: Option<string>)

  /** The custom resource as one reconcile reads it. */
  datatype Resource = Resource(name: string, generation: nat, spec: Spec)

  /** Indexing a Go map: a missing key reads as "". */
  function Lookup(data: map<string, string>, key: string): string {
    if key in data then data[key] else ""
  }

  // ----- operands -----

  datatype PlainKind = ServiceAccountKind | RoleKind | RoleBindingKind | ServiceKind | NetworkPolicyKind

  datatype Kind = ConfigMapKind | DeploymentKind | Other(plain: PlainKind)

  datatype Key = Key(kind: Kind, namespace: string, name: string)

  datatype EnvVar = Literal(name: string, value: string) | FromSecret(name: string, secret: string, key: string)

  datatype Volume = ConfigMapVolume(name: string, configMap: string)
                  | SecretVolume(name: string, secret: string)
                  | EmptyDir(name: string)
                  | TokenVolume(name: string, audience: string)

  datatype Mount = Mount(volume: string, path: string, subPath: string)

  datatype Container = Container(name: string, image: string, env: seq<EnvVar>, mounts: seq<Mount>)

  datatype PodTemplate = PodTemplate(
    annotations: map<string, string>,
    initContainers: seq<Container>,
    containers: seq<Container>,
    volumes: seq<Volume>)

  /** `replicas` may be unset; `detail` holds what varies in the other kinds. */
  datatype Operand =
    | ConfigMap(namespace: string, name: string, owner: string, data: map<string, string>)
    | Deployment(namespace: string, name: string, owner: string, annotations: map<string, string>,
                 replicas: Option<nat>, template: PodTemplate)
    | Plain(kind: PlainKind, namespace: string, name: string, owner: string, detail: string)

  function KeyOf(d: Operand): Key {
    match d
    case ConfigMap(ns, name, _, _) => Key(ConfigMapKind, ns, name)
    case Deployment(ns, name, _, _, _, _) => Key(DeploymentKind, ns, name)
    case Plain(kind, ns, name, _, _) => Key(Other(kind), ns, name)
  }

  // ----- what a pod template refers to -----

  function SecretOfEnv(e: EnvVar): set<string> {
    if e.FromSecret? then {e.secret} else {}
  }

  function SecretOfVolume(v: Volume): set<string> {
    if v.SecretVolume? then {v.secret} else {}
  }

  /** The Secrets a pod mounts, or reads through `secretKeyRef` in any container. */
  function SecretsOf(t: PodTemplate): set<string> {
    (set v, s | v in t.volumes && s in SecretOfVolume(v) :: s)
    + (set c, e, s | c in t.containers && e in c.env && s in SecretOfEnv(e) :: s)
    + (set c, e, s | c in t.initContainers && e in c.env && s in SecretOfEnv(e) :: s)
  }

  function ConfigMapsOf(t: PodTemplate): set<string> {
    set v | v in t.volumes && v.ConfigMapVolume? :: v.configMap
  }

  // ----- live objects -----

  datatype DeploymentStatus = DeploymentStatus(
    observedGeneration: nat, replicas: nat, updatedReplicas: nat, availableReplicas: nat)

  const NO_STATUS := DeploymentStatus(0, 0, 0, 0)

  /** The operator-owned fields of a stored object, the fields of other managers, and what
      the Deployment controller reports. */
  datatype Live = Live(owned: Operand, foreign: string, generation: nat, status: DeploymentStatus)

  /** A Deployment's generation counts changes of its spec, not of its metadata. */
  predicate SameSpec(a: Operand, b: Operand) {
    if a.Deployment? && b.Deployment? then a.replicas == b.replicas && a.template == b.template else a == b
  }

  type Store = m: map<Key, Live> | forall k | k in m :: KeyOf(m[k].owned) == k

  /** Server-side apply with ForceOwnership: the operator's fields become the desired ones,
      everything else stays. */
  function Apply(objects: Store, d: Operand): Store {
    var k := KeyOf(d);
    objects[k := if k in objects then
                   var l := objects[k];
                   l.(owned := d, generation := if SameSpec(l.owned, d) then l.generation else l.generation + 1)
                 else Live(d, "", 1, NO_STATUS)]
  }

  /** Reapplying identical state writes nothing. */
  lemma ApplyIdempotent(objects: Store, d: Operand)
    requires KeyOf(d) in objects && objects[KeyOf(d)].owned == d
    ensures Apply(objects, d) == objects
  {
  }

  // ----- what a component declares about its rollout -----

  datatype ConfigEntry = ConfigEntry(configMap: string, fileKey: string)

  datatype RolloutTarget = RolloutTarget(configEntries: seq<ConfigEntry>, deployment: string)

  datatype SecretReference = SecretReference(role: string, secret: string)

  function SecretNames(refs: seq<SecretReference>): set<string> {
    set r | r in refs :: r.secret
  }

  function ConfigMapNames(target: RolloutTarget): set<string> {
    set e | e in target.configEntries :: e.configMap
  }

  datatype Result<+T> = Ok(value: T) | Failed
}
