/** What the containers of a rendered component find at the paths they look at. */
module RenderedPods {
  import opened Strings
  import opened Operands
  import opened Bundle
  import A = ApiComponent
  import S = SentinelComponent

  // ----- mounts -----

  /** Container `c` of the pod mounts volume `v` at `path`, whole or only the file `subPath` of it. */
  ghost predicate MountsAt(t: PodTemplate, c: Container, path: string, subPath: string, v: Volume) {
    v in t.volumes && exists m :: m in c.mounts && m.volume == v.name && m.path == path && m.subPath == subPath
  }

  /** Every mount names a volume, no volume name is used twice and no path is mounted twice. */
  predicate WellMounted(t: PodTemplate, c: Container) {
    && (forall m | m in c.mounts :: exists v :: v in t.volumes && v.name == m.volume)
    && (forall i, j | 0 <= i < j < |t.volumes| :: t.volumes[i].name != t.volumes[j].name)
    && (forall i, j | 0 <= i < j < |c.mounts| :: c.mounts[i].path != c.mounts[j].path)
  }

  /** The container reads key `key` of Secret `secret` at `path`. */
  ghost predicate FindsSecret(t: PodTemplate, c: Container, path: string, secret: string, key: string) {
    exists v: Volume, dir ::
      MountsAt(t, c, dir, "", v) && v.SecretVolume? && v.secret == secret && path == dir + "/" + key
  }

  /** The container reads key `key` of ConfigMap `name` at `path`. */
  ghost predicate FindsConfig(t: PodTemplate, c: Container, path: string, name: string, key: string) {
    || (exists v: Volume :: MountsAt(t, c, path, key, v) && v.ConfigMapVolume? && v.configMap == name)
    || (exists v: Volume, dir :: MountsAt(t, c, dir, "", v) && v.ConfigMapVolume? && v.configMap == name
                                 && path == dir + "/" + key)
  }

  ghost predicate Sets(c: Container, name: string, value: string) {
    Literal(name, value) in c.env
  }

  // ----- the API -----

  /** Which Secret is mounted at which path. */
  ghost predicate ApiMounts(spec: Spec, path: string, v: Volume) {
    || (path == "/etc/hyperfleet" && v == ConfigMapVolume("config", "hyperfleet-api-config"))
    || (path == "/etc/hyperfleet/db" && v == SecretVolume("db", spec.databaseSecret))
    || (path == "/tmp" && v == EmptyDir("tmp"))
    || (path == "/etc/hyperfleet/tls" && spec.tlsSecret.Some? && v == SecretVolume("tls", spec.tlsSecret.value))
    || (path == "/etc/hyperfleet/jwks" && spec.auth.enabled != Some(false) && spec.auth.jwkCertSecret.Some?
        && v == SecretVolume("jwks", spec.auth.jwkCertSecret.value))
  }

  lemma ApiVolumes(spec: Spec, v: Volume)
    ensures v in A.Volumes(spec) <==>
            || v == ConfigMapVolume("config", "hyperfleet-api-config") || v == SecretVolume("db", spec.databaseSecret)
            || v == EmptyDir("tmp")
            || (spec.tlsSecret.Some? && v == SecretVolume("tls", spec.tlsSecret.value))
            || (spec.auth.enabled != Some(false) && spec.auth.jwkCertSecret.Some?
                && v == SecretVolume("jwks", spec.auth.jwkCertSecret.value))
  {
  }

  lemma ApiMountPoints(spec: Spec, m: Mount)
    ensures m in A.Mounts(spec) <==>
            || m == Mount("config", "/etc/hyperfleet", "") || m == Mount("db", "/etc/hyperfleet/db", "")
            || m == Mount("tmp", "/tmp", "")
            || (spec.tlsSecret.Some? && m == Mount("tls", "/etc/hyperfleet/tls", ""))
            || (spec.auth.enabled != Some(false) && spec.auth.jwkCertSecret.Some?
                && m == Mount("jwks", "/etc/hyperfleet/jwks", ""))
  {
  }

  ghost predicate InPod(t: PodTemplate, c: Container) {
    c in t.containers || c in t.initContainers
  }

  predicate Distinct(names: seq<string>) {
    forall i, j | 0 <= i < j < |names| :: names[i] != names[j]
  }

  lemma ApiNamesDiffer()
    ensures Distinct(["config", "db", "tmp", "tls", "jwks"]) && Distinct(["config", "db", "tmp", "jwks"])
    ensures Distinct(["/etc/hyperfleet", "/etc/hyperfleet/db", "/tmp", "/etc/hyperfleet/tls", "/etc/hyperfleet/jwks"])
    ensures Distinct(["/etc/hyperfleet", "/etc/hyperfleet/db", "/tmp", "/etc/hyperfleet/jwks"])
  {
    assert "tmp"[1] != "tls"[1] && "/etc/hyperfleet/db"[16] != "/etc/hyperfleet/tls"[16];
  }

  /** What the conditions append, as names and as paths. */
  function ApiList(spec: Spec, base: seq<string>, tls: string, jwks: string): seq<string> {
    base + (if spec.tlsSecret.Some? then [tls] else [])
    + (if A.AuthEnabled(spec) && spec.auth.jwkCertSecret.Some? then [jwks] else [])
  }

  lemma ApiListDistinct(spec: Spec, base: seq<string>, tls: string, jwks: string)
    requires Distinct(base + [tls, jwks]) && Distinct(base + [jwks])
    ensures Distinct(ApiList(spec, base, tls, jwks))
  {
    var all := base + [tls, jwks];
    assert forall i | 0 <= i < |base| :: all[i] == base[i];
    assert all[|base|] == tls && all[|base| + 1] == jwks;
  }

  lemma ApiAligned(spec: Spec)
    ensures var names := ApiList(spec, ["config", "db", "tmp"], "tls", "jwks");
            var paths := ApiList(spec, ["/etc/hyperfleet", "/etc/hyperfleet/db", "/tmp"], "/etc/hyperfleet/tls",
                                 "/etc/hyperfleet/jwks");
            && |A.Volumes(spec)| == |A.Mounts(spec)| == |names| == |paths|
            && forall i | 0 <= i < |names| ::
                 A.Volumes(spec)[i].name == names[i] && A.Mounts(spec)[i] == Mount(names[i], paths[i], "")
  {
  }

  lemma ApiWellMounted(spec: Spec, image: string, namespace: string, c: Container)
    requires InPod(A.DeploymentFor(spec, image, namespace).template, c)
    ensures c.mounts == A.Mounts(spec) && c.env == A.Environment() && c.image == image
    ensures WellMounted(A.DeploymentFor(spec, image, namespace).template, c)
  {
    var vs, ms := A.Volumes(spec), A.Mounts(spec);
    ApiNamesDiffer();
    assert ["config", "db", "tmp"] + ["tls", "jwks"] == ["config", "db", "tmp", "tls", "jwks"];
    assert ["config", "db", "tmp"] + ["jwks"] == ["config", "db", "tmp", "jwks"];
    ApiListDistinct(spec, ["config", "db", "tmp"], "tls", "jwks");
    var base := ["/etc/hyperfleet", "/etc/hyperfleet/db", "/tmp"];
    assert base + ["/etc/hyperfleet/tls", "/etc/hyperfleet/jwks"] ==
           ["/etc/hyperfleet", "/etc/hyperfleet/db", "/tmp", "/etc/hyperfleet/tls", "/etc/hyperfleet/jwks"];
    assert base + ["/etc/hyperfleet/jwks"] ==
           ["/etc/hyperfleet", "/etc/hyperfleet/db", "/tmp", "/etc/hyperfleet/jwks"];
    ApiListDistinct(spec, base, "/etc/hyperfleet/tls", "/etc/hyperfleet/jwks");
    ApiAligned(spec);
    AlignedWellMounted(vs, ms, A.DeploymentFor(spec, image, namespace).template, c);
  }

  /** Volumes and mounts listed side by side under distinct names and paths. */
  lemma AlignedWellMounted(vs: seq<Volume>, ms: seq<Mount>, t: PodTemplate, c: Container)
    requires t.volumes == vs && c.mounts == ms && |vs| == |ms|
    requires forall i | 0 <= i < |vs| :: vs[i].name == ms[i].volume
    requires forall i, j | 0 <= i < j < |vs| :: vs[i].name != vs[j].name && ms[i].path != ms[j].path
    ensures WellMounted(t, c)
  {
    forall m | m in ms ensures exists v :: v in t.volumes && v.name == m.volume {
      var i :| 0 <= i < |ms| && ms[i] == m;
      assert vs[i] in t.volumes && vs[i].name == m.volume;
    }
  }

  /** For every spec, every container of the API sees at every path exactly the ConfigMap or Secret that
      belongs there: the database credentials, the TLS Secret and the pinned keys, the latter two exactly
      when the spec has them. */
  lemma ApiPodMounts(spec: Spec, image: string, namespace: string, c: Container, path: string, subPath: string,
                     v: Volume)
    requires InPod(A.DeploymentFor(spec, image, namespace).template, c)
    ensures MountsAt(A.DeploymentFor(spec, image, namespace).template, c, path, subPath, v) <==>
            subPath == "" && ApiMounts(spec, path, v)
  {
    ApiWellMounted(spec, image, namespace, c);
    ApiVolumes(spec, v);
    ApiNamesDiffer();
    if ApiMounts(spec, path, v) {
      ApiMountPoints(spec, Mount(v.name, path, ""));
    }
    forall m | m in c.mounts ensures ApiMounts(spec, m.path, v) <==> v in A.Volumes(spec) && m.volume == v.name {
      ApiMountPoints(spec, m);
    }
    forall m | m in c.mounts ensures m.subPath == "" {
      ApiMountPoints(spec, m);
    }
  }

  /** The credential files the API is pointed at, with the key of the database Secret each is. */
  const DATABASE_FILES: seq<(string, string)> := [
    ("HYPERFLEET_DATABASE_HOST_FILE", "db.host"), ("HYPERFLEET_DATABASE_PORT_FILE", "db.port"),
    ("HYPERFLEET_DATABASE_NAME_FILE", "db.name"), ("HYPERFLEET_DATABASE_USERNAME_FILE", "db.user"),
    ("HYPERFLEET_DATABASE_PASSWORD_FILE", "db.password")]

  lemma ApiFinds(spec: Spec, image: string, namespace: string, c: Container, dir: string, v: Volume, key: string)
    requires InPod(A.DeploymentFor(spec, image, namespace).template, c) && ApiMounts(spec, dir, v)
    ensures var t := A.DeploymentFor(spec, image, namespace).template;
            && (v.SecretVolume? ==> FindsSecret(t, c, dir + "/" + key, v.secret, key))
            && (v.ConfigMapVolume? ==> FindsConfig(t, c, dir + "/" + key, v.configMap, key))
  {
    ApiPodMounts(spec, image, namespace, c, dir, "", v);
  }

  /** Each of the five variables names the file under which the container finds that key of the
      database Secret. */
  lemma ApiDatabaseFiles(spec: Spec, image: string, namespace: string, c: Container, i: nat)
    requires InPod(A.DeploymentFor(spec, image, namespace).template, c) && i < |DATABASE_FILES|
    ensures exists path :: Sets(c, DATABASE_FILES[i].0, path)
                           && FindsSecret(A.DeploymentFor(spec, image, namespace).template, c, path,
                                          spec.databaseSecret, DATABASE_FILES[i].1)
  {
    var key := DATABASE_FILES[i].1;
    var path := "/etc/hyperfleet/db" + "/" + key;
    ApiWellMounted(spec, image, namespace, c);
    ApiFinds(spec, image, namespace, c, "/etc/hyperfleet/db", SecretVolume("db", spec.databaseSecret), key);
    DatabaseFileSet(i);
    assert Sets(c, DATABASE_FILES[i].0, path);
  }

  lemma DatabaseFileSet(i: nat)
    requires i < |DATABASE_FILES|
    ensures Literal(DATABASE_FILES[i].0, "/etc/hyperfleet/db" + "/" + DATABASE_FILES[i].1) in A.Environment()
  {
    var env := A.Environment();
    assert "/etc/hyperfleet/db" + "/" + DATABASE_FILES[i].1 == env[i + 1].value;
    assert env[i + 1] in env;
  }

  /** The configuration a spec, an entity list and a resolved URL amount to; none when auth is on and
      there is neither a pinned Secret nor a URL. */
  lemma ApiConfigIs(spec: Spec, entities: seq<A.EntityDescriptor>, url: string)
    ensures A.ConfigFor(A.InputFor(spec, entities, url)) ==
            if spec.auth.enabled == Some(false) then Ok(A.Config(spec.tlsSecret.Some?, false, [], entities))
            else if spec.auth.jwkCertSecret.Some? then
              Ok(A.Config(spec.tlsSecret.Some?, true,
                   [A.IssuerConfig(spec.auth.issuer, spec.auth.audience, "", "/etc/hyperfleet/jwks/jwks.json")],
                   entities))
            else if url != "" then
              Ok(A.Config(spec.tlsSecret.Some?, true,
                   [A.IssuerConfig(spec.auth.issuer, spec.auth.audience, url, "")], entities))
            else Failed
  {
  }

  /** The key file named in the configuration is where every container finds the pinned Secret. */
  lemma ApiKeyFile(spec: Spec, image: string, namespace: string, c: Container, entities: seq<A.EntityDescriptor>,
                   url: string)
    requires InPod(A.DeploymentFor(spec, image, namespace).template, c)
    requires spec.auth.enabled != Some(false) && spec.auth.jwkCertSecret.Some?
    ensures var cfg := A.ConfigFor(A.InputFor(spec, entities, url));
            && cfg.Ok? && |cfg.value.issuers| == 1
            && FindsSecret(A.DeploymentFor(spec, image, namespace).template, c, cfg.value.issuers[0].jwkCertFile,
                           spec.auth.jwkCertSecret.value, "jwks.json")
  {
    ApiConfigIs(spec, entities, url);
    ApiFinds(spec, image, namespace, c, "/etc/hyperfleet/jwks", SecretVolume("jwks", spec.auth.jwkCertSecret.value),
      "jwks.json");
    KeyPath();
  }

  lemma KeyPath()
    ensures "/etc/hyperfleet/jwks" + "/" + "jwks.json" == "/etc/hyperfleet/jwks/jwks.json"
  {
  }

  /** Among the operands, what container `c` reads at `path` is `text`. */
  ghost predicate ReadsText(objs: seq<Operand>, t: PodTemplate, c: Container, path: string, text: string) {
    exists name, key, o: Operand ::
      && FindsConfig(t, c, path, name, key) && o in objs && o.ConfigMap? && o.name == name
      && key in o.data && o.data[key] == text
  }

  lemma ReadsFrom(objs: seq<Operand>, t: PodTemplate, c: Container, path: string, o: Operand, key: string)
    requires o in objs && o.ConfigMap? && key in o.data && FindsConfig(t, c, path, o.name, key)
    ensures ReadsText(objs, t, c, path, o.data[key])
  {
  }

  lemma ConfigPath()
    ensures "/etc/hyperfleet" + "/" + "config.yaml" == "/etc/hyperfleet/config.yaml"
    ensures Literal("HYPERFLEET_CONFIG", "/etc/hyperfleet/config.yaml") in A.Environment()
  {
    assert A.Environment()[0] in A.Environment();
  }

  lemma ApiConfigFound(spec: Spec, image: string, namespace: string, c: Container)
    requires InPod(A.DeploymentFor(spec, image, namespace).template, c)
    ensures FindsConfig(A.DeploymentFor(spec, image, namespace).template, c, "/etc/hyperfleet" + "/" + "config.yaml",
                        "hyperfleet-api-config", "config.yaml")
  {
    ApiFinds(spec, image, namespace, c, "/etc/hyperfleet", ConfigMapVolume("config", "hyperfleet-api-config"),
      "config.yaml");
  }

  lemma ApiConfigRendered(m: Marshal, image: string, namespace: string, entities: seq<A.EntityDescriptor>, url: string,
                          spec: Spec)
    requires Render(m, Api(image, namespace, entities, url), spec).Ok?
    ensures var cfg := A.ConfigFor(A.InputFor(spec, entities, url));
            cfg.Ok? && ConfigMap(namespace, "hyperfleet-api-config", "", map["config.yaml" := m.api(cfg.value)])
                       in Render(m, Api(image, namespace, entities, url), spec).value
  {
    var objs := Render(m, Api(image, namespace, entities, url), spec).value;
    assert objs[3] in objs;
  }

  const API_IMAGE := "quay.io/redhat-services-prod/hyperfleet-tenant/hyperfleet/hyperfleet-api:0.4.0"

  /** The API runs the configured image, and reads the configuration rendered for it at the path it is
      told. */
  lemma ApiReadsItsConfig(m: Marshal, image: string, namespace: string, entities: seq<A.EntityDescriptor>, url: string,
                          spec: Spec, c: Container)
    requires Render(m, Api(image, namespace, entities, url), spec).Ok?
    requires InPod(Template(Api(image, namespace, entities, url), spec), c)
    ensures var api := Api(image, namespace, entities, url);
            var cfg := A.ConfigFor(A.InputFor(spec, entities, url));
            && WellMounted(Template(api, spec), c) && c.image == (if image == "" then API_IMAGE else image) && cfg.Ok?
            && Sets(c, "HYPERFLEET_CONFIG", "/etc/hyperfleet/config.yaml")
            && ReadsText(Render(m, api, spec).value, Template(api, spec), c, "/etc/hyperfleet/config.yaml",
                         m.api(cfg.value))
  {
    var img := if image == "" then A.DEFAULT_IMAGE else image;
    var objs := Render(m, Api(image, namespace, entities, url), spec).value;
    ApiWellMounted(spec, img, namespace, c);
    ConfigPath();
    ApiConfigFound(spec, img, namespace, c);
    ApiConfigRendered(m, image, namespace, entities, url, spec);
    var cfg := A.ConfigFor(A.InputFor(spec, entities, url)).value;
    ReadsFrom(objs, A.DeploymentFor(spec, img, namespace).template, c, "/etc/hyperfleet/config.yaml",
      ConfigMap(namespace, "hyperfleet-api-config", "", map["config.yaml" := m.api(cfg)]), "config.yaml");
  }

  // ----- a Sentinel -----

  ghost predicate SentinelMounts(spec: Spec, resourceType: string, path: string, subPath: string, v: Volume) {
    || (path == "/etc/hyperfleet/config.yaml" && subPath == "config.yaml"
        && v == ConfigMapVolume("config", "hyperfleet-sentinel-" + resourceType + "-config"))
    || (path == "/etc/hyperfleet/broker.yaml" && subPath == "broker.yaml"
        && v == ConfigMapVolume("broker-config", "hyperfleet-sentinel-" + resourceType + "-broker-config"))
    || (path == "/tmp" && subPath == "" && v == EmptyDir("tmp"))
    || (path == "/var/run/secrets/hyperfleet/api-token" && subPath == "" && spec.auth.enabled != Some(false)
        && v == TokenVolume("hyperfleet-api-token", spec.auth.audience))
  }

  lemma SentinelNamesDiffer()
    ensures Distinct(["config", "broker-config", "tmp", "hyperfleet-api-token"])
    ensures Distinct(["/etc/hyperfleet/config.yaml", "/etc/hyperfleet/broker.yaml", "/tmp",
                      "/var/run/secrets/hyperfleet/api-token"])
  {
    assert "/etc/hyperfleet/config.yaml"[16] != "/etc/hyperfleet/broker.yaml"[16];
  }

  lemma SentinelAligned(spec: Spec, resourceType: string)
    ensures var names := ["config", "broker-config", "tmp", "hyperfleet-api-token"];
            var paths := ["/etc/hyperfleet/config.yaml", "/etc/hyperfleet/broker.yaml", "/tmp",
                          "/var/run/secrets/hyperfleet/api-token"];
            var vs, ms := S.Volumes(spec, resourceType), S.Mounts(spec);
            && |vs| == |ms| <= 4
            && forall i | 0 <= i < |vs| :: vs[i].name == names[i] == ms[i].volume && ms[i].path == paths[i]
  {
  }

  lemma SentinelWellMounted(spec: Spec, image: string, namespace: string, resourceType: string, brokerType: string,
                            c: Container)
    requires InPod(S.DeploymentFor(spec, image, namespace, resourceType, brokerType).template, c)
    ensures c.mounts == S.Mounts(spec) && c.env == S.Environment(brokerType) && c.image == image
    ensures WellMounted(S.DeploymentFor(spec, image, namespace, resourceType, brokerType).template, c)
  {
    SentinelNamesDiffer();
    SentinelAligned(spec, resourceType);
    AlignedWellMounted(S.Volumes(spec, resourceType), S.Mounts(spec),
      S.DeploymentFor(spec, image, namespace, resourceType, brokerType).template, c);
  }

  lemma SentinelVolumes(spec: Spec, resourceType: string, v: Volume)
    ensures v in S.Volumes(spec, resourceType) <==>
            || v == ConfigMapVolume("config", "hyperfleet-sentinel-" + resourceType + "-config")
            || v == ConfigMapVolume("broker-config", "hyperfleet-sentinel-" + resourceType + "-broker-config")
            || v == EmptyDir("tmp")
            || (spec.auth.enabled != Some(false) && v == TokenVolume("hyperfleet-api-token", spec.auth.audience))
  {
  }

  lemma SentinelMountPoints(spec: Spec, m: Mount)
    ensures m in S.Mounts(spec) <==>
            || m == Mount("config", "/etc/hyperfleet/config.yaml", "config.yaml")
            || m == Mount("broker-config", "/etc/hyperfleet/broker.yaml", "broker.yaml")
            || m == Mount("tmp", "/tmp", "")
            || (spec.auth.enabled != Some(false)
                && m == Mount("hyperfleet-api-token", "/var/run/secrets/hyperfleet/api-token", ""))
  {
  }

  /** For every spec, a Sentinel sees exactly its own two files and, when auth is on, a token for the
      audience of the API. */
  lemma SentinelPodMounts(spec: Spec, image: string, namespace: string, resourceType: string, brokerType: string,
                          c: Container, path: string, subPath: string, v: Volume)
    requires InPod(S.DeploymentFor(spec, image, namespace, resourceType, brokerType).template, c)
    ensures MountsAt(S.DeploymentFor(spec, image, namespace, resourceType, brokerType).template, c, path, subPath, v)
            <==> SentinelMounts(spec, resourceType, path, subPath, v)
  {
    SentinelWellMounted(spec, image, namespace, resourceType, brokerType, c);
    SentinelVolumes(spec, resourceType, v);
    SentinelNamesDiffer();
    if SentinelMounts(spec, resourceType, path, subPath, v) {
      SentinelMountPoints(spec, Mount(v.name, path, subPath));
    }
    forall m | m in c.mounts
      ensures SentinelMounts(spec, resourceType, m.path, m.subPath, v) <==>
              v in S.Volumes(spec, resourceType) && m.volume == v.name
    {
      SentinelMountPoints(spec, m);
    }
  }

  /** What a Sentinel is configured to be. */
  lemma SentinelConfigIs(spec: Spec, namespace: string, resourceType: string, baseURL: string, parentKind: string)
    requires S.HasMessageDecision(resourceType)
    ensures S.ConfigFor(spec, namespace, resourceType, baseURL, parentKind) ==
            Ok(S.Config("hyperfleet-sentinel-" + resourceType, baseURL, spec.auth.enabled != Some(false),
                 namespace + "-" + resourceType, resourceType, parentKind != ""))
  {
  }

  lemma BrokerConfigIs(broker: S.BrokerInfo)
    ensures S.BrokerConfigFor(broker) ==
            if broker.brokerType == "rabbitmq" then Ok(S.RabbitMQ)
            else if broker.brokerType == "googlepubsub" && broker.projectID != "" then Ok(S.PubSub(broker.projectID))
            else Failed
  {
  }

  /** The broker credential is handed over as a variable exactly for RabbitMQ. */
  lemma SentinelCredential(brokerType: string, e: EnvVar)
    ensures e in S.Environment(brokerType) && e.FromSecret? <==>
            brokerType == "rabbitmq"
            && e == FromSecret("BROKER_RABBITMQ_URL", "hyperfleet-broker-credentials", "BROKER_RABBITMQ_URL")
  {
    var env := S.Environment(brokerType);
    assert env == [env[0]] || (env == [env[0], env[1]] && env[1] in env);
  }

  lemma SentinelFilesFound(spec: Spec, image: string, namespace: string, resourceType: string, brokerType: string,
                           c: Container)
    requires InPod(S.DeploymentFor(spec, image, namespace, resourceType, brokerType).template, c)
    ensures var t := S.DeploymentFor(spec, image, namespace, resourceType, brokerType).template;
            && FindsConfig(t, c, "/etc/hyperfleet/config.yaml", S.ConfigMapName(resourceType), "config.yaml")
            && FindsConfig(t, c, "/etc/hyperfleet/broker.yaml", S.BrokerConfigMapName(resourceType), "broker.yaml")
    ensures Sets(c, "BROKER_CONFIG_FILE", "/etc/hyperfleet/broker.yaml")
  {
    SentinelWellMounted(spec, image, namespace, resourceType, brokerType, c);
    SentinelPodMounts(spec, image, namespace, resourceType, brokerType, c, "/etc/hyperfleet/config.yaml",
      "config.yaml", ConfigMapVolume("config", S.ConfigMapName(resourceType)));
    SentinelPodMounts(spec, image, namespace, resourceType, brokerType, c, "/etc/hyperfleet/broker.yaml",
      "broker.yaml", ConfigMapVolume("broker-config", S.BrokerConfigMapName(resourceType)));
    assert S.Environment(brokerType)[0] in c.env;
  }

  lemma SentinelFilesRendered(m: Marshal, k: Component, spec: Spec)
    requires k.Sentinel? && Render(m, k, spec).Ok?
    ensures var objs := Render(m, k, spec).value;
            var cfg := S.ConfigFor(spec, k.namespace, k.resourceType, k.apiBaseURL, k.parentKind);
            var broker := S.BrokerConfigFor(k.broker);
            && cfg.Ok? && broker.Ok?
            && ConfigMap(k.namespace, S.ConfigMapName(k.resourceType), "",
                         map["config.yaml" := m.sentinel(cfg.value)]) in objs
            && ConfigMap(k.namespace, S.BrokerConfigMapName(k.resourceType), "",
                         map["broker.yaml" := m.broker(broker.value)]) in objs
  {
    var objs := Render(m, k, spec).value;
    assert objs[1] in objs && objs[2] in objs;
  }

  /** A Sentinel runs the configured image and reads the two files rendered for it where it looks. */
  lemma SentinelReadsItsConfig(m: Marshal, k: Component, spec: Spec, c: Container)
    requires k.Sentinel? && Render(m, k, spec).Ok? && InPod(Template(k, spec), c)
    ensures var objs, t := Render(m, k, spec).value, Template(k, spec);
            var cfg := S.ConfigFor(spec, k.namespace, k.resourceType, k.apiBaseURL, k.parentKind);
            var broker := S.BrokerConfigFor(k.broker);
            && WellMounted(t, c) && c.image == k.image && cfg.Ok? && broker.Ok?
            && ReadsText(objs, t, c, "/etc/hyperfleet/config.yaml", m.sentinel(cfg.value))
            && Sets(c, "BROKER_CONFIG_FILE", "/etc/hyperfleet/broker.yaml")
            && ReadsText(objs, t, c, "/etc/hyperfleet/broker.yaml", m.broker(broker.value))
  {
    var objs, t := Render(m, k, spec).value, Template(k, spec);
    SentinelWellMounted(spec, k.image, k.namespace, k.resourceType, k.broker.brokerType, c);
    SentinelFilesFound(spec, k.image, k.namespace, k.resourceType, k.broker.brokerType, c);
    SentinelFilesRendered(m, k, spec);
    var cfg := S.ConfigFor(spec, k.namespace, k.resourceType, k.apiBaseURL, k.parentKind).value;
    ReadsFrom(objs, t, c, "/etc/hyperfleet/config.yaml",
      ConfigMap(k.namespace, S.ConfigMapName(k.resourceType), "", map["config.yaml" := m.sentinel(cfg)]),
      "config.yaml");
    ReadsFrom(objs, t, c, "/etc/hyperfleet/broker.yaml",
      ConfigMap(k.namespace, S.BrokerConfigMapName(k.resourceType), "",
                map["broker.yaml" := m.broker(S.BrokerConfigFor(k.broker).value)]), "broker.yaml");
  }

  // ----- the bundle -----

  /** Every Sentinel of a wired tier calls the Service the API renders, in its namespace, over https
      exactly when the API's configuration turns TLS on; and each descends from its entity. */
  lemma SentinelsCallTheApi(config: Config, spec: Spec, url: string, i: nat)
    requires config.broker.Some? && i < |CLOUD_CAPI_ENTITIES|
    ensures var cs := Tier(config, CLOUD_CAPI_ENTITIES, A.APIBaseURL(spec, config.namespace), url);
            var api, e := A.ConfigFor(A.InputFor(spec, CLOUD_CAPI_ENTITIES, url)), CLOUD_CAPI_ENTITIES[i];
            var scheme := if spec.tlsSecret.Some? then "https" else "http";
            && cs[0] == Api(config.apiImage, config.namespace, CLOUD_CAPI_ENTITIES, url)
            && Key(Other(ServiceKind), config.namespace, "hyperfleet-api") in Keys(cs[0])
            && (api.Ok? ==> api.value.tls == (scheme == "https") && api.value.entities == CLOUD_CAPI_ENTITIES)
            && cs[i + 1] ==
               Sentinel(config.sentinelImage, config.namespace, e.plural,
                        scheme + "://hyperfleet-api." + config.namespace + ".svc:8000", config.broker.value,
                        e.parentKind)
  {
    ApiConfigIs(spec, CLOUD_CAPI_ENTITIES, url);
    var api := Api(config.apiImage, config.namespace, CLOUD_CAPI_ENTITIES, url);
    assert Keys(api)[4] in Keys(api);
    assert A.APIBaseURL(spec, config.namespace) ==
           (if spec.tlsSecret.Some? then "https" else "http") + "://hyperfleet-api." + config.namespace + ".svc:8000"
    by {
      assert "://" + "hyperfleet-api" + "." == "://hyperfleet-api.";
      BaseURLSpelt(A.Scheme(spec), config.namespace);
    }
    assert "https" != "http";
  }

  lemma BaseURLSpelt(scheme: string, namespace: string)
    ensures scheme + "://" + A.RESOURCE_NAME + "." + namespace + ".svc:8000" ==
            scheme + "://hyperfleet-api." + namespace + ".svc:8000"
  {
    assert scheme + "://" + A.RESOURCE_NAME + "." == scheme + "://hyperfleet-api.";
  }

  /** Every entity with a parent names one registered before it. */
  lemma ParentsAreRegistered()
    ensures forall i | 0 <= i < |CLOUD_CAPI_ENTITIES| && CLOUD_CAPI_ENTITIES[i].parentKind != "" ::
              exists j :: 0 <= j < i && CLOUD_CAPI_ENTITIES[j].kind == CLOUD_CAPI_ENTITIES[i].parentKind
  {
    assert CLOUD_CAPI_ENTITIES[0].kind == CLOUD_CAPI_ENTITIES[1].parentKind;
    assert CLOUD_CAPI_ENTITIES[2].kind == CLOUD_CAPI_ENTITIES[3].parentKind;
  }

  /** The API is rendered a Service of that name whose port speaks the same scheme. */
  lemma ApiServiceRendered(m: Marshal, image: string, namespace: string, entities: seq<A.EntityDescriptor>, url: string,
                           spec: Spec)
    requires Render(m, Api(image, namespace, entities, url), spec).Ok?
    ensures Plain(ServiceKind, namespace, "hyperfleet-api", "", if spec.tlsSecret.Some? then "https" else "http")
            in Render(m, Api(image, namespace, entities, url), spec).value
  {
    var objs := Render(m, Api(image, namespace, entities, url), spec).value;
    assert objs[4] in objs;
  }
}
