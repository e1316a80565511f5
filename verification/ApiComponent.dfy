/** The API component: what it references, renders and rolls on. */
module ApiComponent {
  import opened Strings
  import opened Operands

  const RESOURCE_NAME := "hyperfleet-api"
  const CONFIG_MAP_NAME := "hyperfleet-api-config"
  const CONFIG_FILE_KEY := "config.yaml"
  const COMPONENT_NAME := "api"
  const DEFAULT_IMAGE := "quay.io/redhat-services-prod/hyperfleet-tenant/hyperfleet/hyperfleet-api:0.4.0"

  const CONFIG_PATH := "/etc/hyperfleet"
  const DB_PATH := "/etc/hyperfleet/db"
  const TLS_PATH := "/etc/hyperfleet/tls"
  const JWKS_PATH := "/etc/hyperfleet/jwks"
  const JWKS_FILE := "/etc/hyperfleet/jwks/jwks.json"

  datatype EntityDescriptor = EntityDescriptor(
    kind: string, plural: string, parentKind: string, onParentDelete: string, specSchemaName: string,
    requiredAdapters: seq<string>, nameMinLen: nat, nameMaxLen: nat, requireSpecSchema: bool)

  /** nil means enabled, as in the schema. */
  predicate AuthEnabled(spec: Spec) {
    spec.auth.enabled.None? || spec.auth.enabled.value
  }

  function Scheme(spec: Spec): string {
    if spec.tlsSecret.Some? then "https" else "http"
  }

  function APIBaseURL(spec: Spec, namespace: string): string {
    Scheme(spec) + "://" + RESOURCE_NAME + "." + namespace + ".svc:8000"
  }

  // ----- config.yaml -----

  datatype IssuerConfig = IssuerConfig(issuer: string, audience: string, jwkCertURL: string, jwkCertFile: string)

  datatype Config = Config(tls: bool, jwtEnabled: bool, issuers: seq<IssuerConfig>, entities: seq<EntityDescriptor>)

  datatype ConfigInput = ConfigInput(
    authEnabled: bool, issuer: string, audience: string, jwkCertURL: string, jwkCertFile: string,
    tlsEnabled: bool, entities: seq<EntityDescriptor>)

  function ConfigFor(input: ConfigInput): Result<Config> {
    if !input.authEnabled then Ok(Config(input.tlsEnabled, false, [], input.entities))
    else if input.jwkCertURL == "" && input.jwkCertFile == "" then Failed
    else Ok(Config(input.tlsEnabled, true,
              [IssuerConfig(input.issuer, input.audience, input.jwkCertURL, input.jwkCertFile)], input.entities))
  }

  /** `renderConfig`: fill in the TLS and JWT parts, then marshal. */
  method RenderConfig(yaml: Config -> string, input: ConfigInput) returns (r: Result<string>)
    ensures r == match ConfigFor(input) case Ok(c) => Ok(yaml(c)) case Failed => Failed
  {
    var cfg := Config(false, input.authEnabled, [], input.entities);
    if input.tlsEnabled {
      cfg := cfg.(tls := true);
    }
    if input.authEnabled {
      if input.jwkCertURL == "" && input.jwkCertFile == "" {
        return Failed;
      }
      cfg := cfg.(issuers := [IssuerConfig(input.issuer, input.audience, input.jwkCertURL, input.jwkCertFile)]);
    }
    return Ok(yaml(cfg));
  }

  /** The single JWKS source: a mounted Secret when pinned, else the discovered URL. */
  function ResolveJWKSource(spec: Spec, resolvedJWKSURL: string): (r: (string, string)) {
    if !AuthEnabled(spec) then ("", "")
    else if spec.auth.jwkCertSecret.Some? then ("", JWKS_FILE)
    else (resolvedJWKSURL, "")
  }

  function InputFor(spec: Spec, entities: seq<EntityDescriptor>, resolvedJWKSURL: string): ConfigInput {
    var (url, file) := ResolveJWKSource(spec, resolvedJWKSURL);
    ConfigInput(AuthEnabled(spec), spec.auth.issuer, spec.auth.audience, url, file, spec.tlsSecret.Some?, entities)
  }

  /** The branch "auth enabled but no JWKS source resolved" is taken exactly when auth is on,
      no Secret is pinned and discovery supplied nothing. */
  lemma NoSourceIff(spec: Spec, entities: seq<EntityDescriptor>, resolvedJWKSURL: string)
    ensures ConfigFor(InputFor(spec, entities, resolvedJWKSURL)) == Failed <==>
            AuthEnabled(spec) && spec.auth.jwkCertSecret.None? && resolvedJWKSURL == ""
    ensures ConfigFor(InputFor(spec, entities, resolvedJWKSURL)).Ok? ==>
            forall i | i in ConfigFor(InputFor(spec, entities, resolvedJWKSURL)).value.issuers ::
              (i.jwkCertURL == "") != (i.jwkCertFile == "")
  {
  }

  // ----- references -----

  function ReferencedSecrets(spec: Spec): seq<SecretReference> {
    [SecretReference("database", spec.databaseSecret)]
    + (if spec.tlsSecret.Some? then [SecretReference("tls", spec.tlsSecret.value)] else [])
    + (if AuthEnabled(spec) && spec.auth.jwkCertSecret.Some?
       then [SecretReference("jwks", spec.auth.jwkCertSecret.value)] else [])
  }

  const ROLLOUT := RolloutTarget([ConfigEntry(CONFIG_MAP_NAME, CONFIG_FILE_KEY)], RESOURCE_NAME)

  // ----- the Deployment -----

  function Environment(): seq<EnvVar> {
    [Literal("HYPERFLEET_CONFIG", "/etc/hyperfleet/config.yaml"),
     Literal("HYPERFLEET_DATABASE_HOST_FILE", "/etc/hyperfleet/db/db.host"),
     Literal("HYPERFLEET_DATABASE_PORT_FILE", "/etc/hyperfleet/db/db.port"),
     Literal("HYPERFLEET_DATABASE_NAME_FILE", "/etc/hyperfleet/db/db.name"),
     Literal("HYPERFLEET_DATABASE_USERNAME_FILE", "/etc/hyperfleet/db/db.user"),
     Literal("HYPERFLEET_DATABASE_PASSWORD_FILE", "/etc/hyperfleet/db/db.password")]
  }

  /** `deployment`: the TLS and JWKS volumes are appended under their conditions. */
  method BuildDeployment(spec: Spec, image: string, namespace: string) returns (d: Operand)
    ensures d == DeploymentFor(spec, image, namespace)
  {
    var mounts := [Mount("config", CONFIG_PATH, ""), Mount("db", DB_PATH, ""), Mount("tmp", "/tmp", "")];
    var volumes := [ConfigMapVolume("config", CONFIG_MAP_NAME), SecretVolume("db", spec.databaseSecret),
      EmptyDir("tmp")];
    if spec.tlsSecret.Some? {
      mounts := mounts + [Mount("tls", TLS_PATH, "")];
      volumes := volumes + [SecretVolume("tls", spec.tlsSecret.value)];
    }
    if AuthEnabled(spec) && spec.auth.jwkCertSecret.Some? {
      mounts := mounts + [Mount("jwks", JWKS_PATH, "")];
      volumes := volumes + [SecretVolume("jwks", spec.auth.jwkCertSecret.value)];
    }
    assert mounts == Mounts(spec) && volumes == Volumes(spec);
    var env := Environment();
    d := Deployment(namespace, RESOURCE_NAME, "", map[], Some(1), PodTemplate(map[],
      [Container("db-migrate", image, env, mounts)], [Container(RESOURCE_NAME, image, env, mounts)], volumes));
  }

  function Volumes(spec: Spec): seq<Volume> {
    [ConfigMapVolume("config", CONFIG_MAP_NAME), SecretVolume("db", spec.databaseSecret), EmptyDir("tmp")]
    + (if spec.tlsSecret.Some? then [SecretVolume("tls", spec.tlsSecret.value)] else [])
    + (if AuthEnabled(spec) && spec.auth.jwkCertSecret.Some?
       then [SecretVolume("jwks", spec.auth.jwkCertSecret.value)] else [])
  }

  function Mounts(spec: Spec): seq<Mount> {
    [Mount("config", CONFIG_PATH, ""), Mount("db", DB_PATH, ""), Mount("tmp", "/tmp", "")]
    + (if spec.tlsSecret.Some? then [Mount("tls", TLS_PATH, "")] else [])
    + (if AuthEnabled(spec) && spec.auth.jwkCertSecret.Some? then [Mount("jwks", JWKS_PATH, "")] else [])
  }

  function DeploymentFor(spec: Spec, image: string, namespace: string): Operand {
    Deployment(namespace, RESOURCE_NAME, "", map[], Some(1), PodTemplate(map[],
      [Container("db-migrate", image, Environment(), Mounts(spec))],
      [Container(RESOURCE_NAME, image, Environment(), Mounts(spec))], Volumes(spec)))
  }

  lemma VolumeSecrets(spec: Spec)
    ensures (set v, s | v in Volumes(spec) && s in SecretOfVolume(v) :: s) == SecretNames(ReferencedSecrets(spec))
  {
    var refs, volumes := ReferencedSecrets(spec), Volumes(spec);
    forall r | r in refs ensures exists v :: v in volumes && r.secret in SecretOfVolume(v) {
      var v := SecretVolume(if r == refs[0] then "db" else r.role, r.secret);
      assert v in volumes && r.secret in SecretOfVolume(v);
    }
    forall v, s | v in volumes && s in SecretOfVolume(v) ensures s in SecretNames(refs) {
      var role := if v == volumes[1] then "database" else v.name;
      assert SecretReference(role, s) in refs;
    }
  }

  lemma VolumeConfigMaps(spec: Spec)
    ensures (set v | v in Volumes(spec) && v.ConfigMapVolume? :: v.configMap) == ConfigMapNames(ROLLOUT)
  {
  }

  lemma NoSecretVariables()
    ensures forall e | e in Environment() :: SecretOfEnv(e) == {}
  {
  }

  /** For every spec, the pods refer to exactly the Secrets that are hashed and to exactly
      the ConfigMaps that are hashed. */
  lemma ReferencesMatch(spec: Spec, image: string, namespace: string)
    ensures SecretsOf(DeploymentFor(spec, image, namespace).template) == SecretNames(ReferencedSecrets(spec))
    ensures ConfigMapsOf(DeploymentFor(spec, image, namespace).template) == ConfigMapNames(ROLLOUT)
  {
    VolumeSecrets(spec);
    VolumeConfigMaps(spec);
    NoSecretVariables();
  }

  /** The hashed roles are distinct, so the hash does not depend on the sort. */
  lemma RolesDistinct(spec: Spec)
    ensures forall i, j | 0 <= i < j < |ReferencedSecrets(spec)| ::
              ReferencedSecrets(spec)[i].role != ReferencedSecrets(spec)[j].role
  {
  }

  // ----- Render -----

  function Render(yaml: Config -> string, spec: Spec, image: string, namespace: string,
                  entities: seq<EntityDescriptor>, resolvedJWKSURL: string): (r: Result<seq<Operand>>)
    ensures r.Failed? <==> ConfigFor(InputFor(spec, entities, resolvedJWKSURL)).Failed?
  {
    match ConfigFor(InputFor(spec, entities, resolvedJWKSURL))
    case Failed => Failed
    case Ok(cfg) => Ok([
      Plain(ServiceAccountKind, namespace, RESOURCE_NAME, "", ""),
      Plain(RoleKind, namespace, RESOURCE_NAME, "", ""),
      Plain(RoleBindingKind, namespace, RESOURCE_NAME, "", ""),
      ConfigMap(namespace, CONFIG_MAP_NAME, "", map[CONFIG_FILE_KEY := yaml(cfg)]),
      Plain(ServiceKind, namespace, RESOURCE_NAME, "", Scheme(spec)),
      DeploymentFor(spec, if image == "" then DEFAULT_IMAGE else image, namespace)])
  }
}
