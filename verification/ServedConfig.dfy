/** The configuration the API is served over a run: which key source it names, and that it is what the
    cluster holds and every container reads. */
module ServedConfig {
  import opened Strings
  import opened Operands
  import opened ReconcileLoop
  import opened Controller
  import opened Convergence
  import opened ControllerRuns
  import opened StoredOperands
  import opened RenderedPods
  import Bundle
  import Discovery
  import A = ApiComponent

  /** The configuration for a spec with key source `url`; a pinned Secret takes its place. */
  function ApiConfig(spec: Spec, url: string): A.Config {
    var pinned := spec.auth.jwkCertSecret.Some?;
    A.Config(spec.tlsSecret.Some?, spec.auth.enabled != Some(false),
      if spec.auth.enabled == Some(false) then []
      else [A.IssuerConfig(spec.auth.issuer, spec.auth.audience, if pinned then "" else url,
              if pinned then "/etc/hyperfleet/jwks/jwks.json" else "")],
      Bundle.CLOUD_CAPI_ENTITIES)
  }

  /** The URL comes from where it should: the document this reconcile fetched, else that of the latest
      success since the process started, nothing when it is not looked to. */
  ghost predicate FromSource(fn: Functions, w: World, steps: seq<Step>, given: Inputs, url: string) {
    Discovery.SourceURL(Attempts(fn, w, steps), given.cr.spec, given.net, url)
  }

  lemma ResolvedFromSource(fn: Functions, w: World, steps: seq<Step>, given: Inputs)
    requires w.cache == map[] && ReachesLoop(Run(fn, w, steps), given)
    ensures FromSource(fn, w, steps, given, JWKSURL(Run(fn, w, steps), given).value)
  {
    CacheOfRun(fn, w, steps);
    Discovery.ResolvesTo(Attempts(fn, w, steps), given.cr.spec, given.net, JWKSURL(Run(fn, w, steps), given).value);
  }

  lemma ConfigRendered(m: Bundle.Marshal, config: Bundle.Config, spec: Spec, url: string)
    requires Bundle.Resolved(spec.bundle, config).Ok?
    requires Bundle.Render(m, Components(config, spec, url)[0], spec).Ok?
    ensures ConfigMap(config.namespace, "hyperfleet-api-config", "", map["config.yaml" := m.api(ApiConfig(spec, url))])
            in Bundle.Render(m, Components(config, spec, url)[0], spec).value
  {
    ApiConfigIs(spec, Bundle.CLOUD_CAPI_ENTITIES, url);
    ApiConfigRendered(m, config.apiImage, config.namespace, Bundle.CLOUD_CAPI_ENTITIES, url, spec);
  }

  /** Every reconcile of a run that reaches the component loop renders the API the configuration with
      that URL as its one key source, or with the pinned Secret, or with none when auth is off. */
  lemma RendersResolvedURL(fn: Functions, w: World, steps: seq<Step>, given: Inputs)
    requires w.cache == map[] && ReachesLoop(Run(fn, w, steps), given)
    ensures var v, spec := Run(fn, w, steps), given.cr.spec;
            var c := Wired(v, given)[0];
            && Bundle.Render(fn.marshal, c, spec).Ok?
            && exists url ::
                 FromSource(fn, w, steps, given, url)
                 && ConfigMap(v.config.namespace, "hyperfleet-api-config", "",
                              map["config.yaml" := fn.marshal.api(ApiConfig(spec, url))])
                    in Bundle.Render(fn.marshal, c, spec).value
  {
    var v := Run(fn, w, steps);
    ResolvedFromSource(fn, w, steps, given);
    DiscoverySafety(fn, w, steps, given);
    ConfigRendered(fn.marshal, v.config, given.cr.spec, JWKSURL(v, given).value);
  }

  lemma StoredText(fn: Functions, w: World, given: Inputs, i: nat, o: Operand)
    requires !Body(fn, w, given).findings.failed && ReachesLoop(w, given) && i < |Wired(w, given)|
    requires Bundle.Render(fn.marshal, Wired(w, given)[i], given.cr.spec).Ok? && o.ConfigMap?
    requires o in Bundle.Render(fn.marshal, Wired(w, given)[i], given.cr.spec).value
    ensures KeyOf(o) in Body(fn, w, given).objects
    ensures Body(fn, w, given).objects[KeyOf(o)].owned == OwnedBy(o, given.cr.name)
  {
    var objs := Bundle.Render(fn.marshal, Wired(w, given)[i], given.cr.spec).value;
    var m :| 0 <= m < |objs| && objs[m] == o;
    AsRendered(fn, w, given, i, m);
  }

  /** And a successful one leaves exactly that configuration in the cluster. */
  lemma ServesResolvedURL(fn: Functions, w: World, steps: seq<Step>, given: Inputs)
    requires w.cache == map[] && !Body(fn, Run(fn, w, steps), given).findings.failed
    requires ReachesLoop(Run(fn, w, steps), given)
    ensures var v := Run(fn, w, steps);
            var k, after := Key(ConfigMapKind, v.config.namespace, "hyperfleet-api-config"), Body(fn, v, given).objects;
            exists url ::
              FromSource(fn, w, steps, given, url) && k in after
              && after[k].owned ==
                 ConfigMap(v.config.namespace, "hyperfleet-api-config", given.cr.name,
                           map["config.yaml" := fn.marshal.api(ApiConfig(given.cr.spec, url))])
  {
    var v := Run(fn, w, steps);
    RendersResolvedURL(fn, w, steps, given);
    var url :| FromSource(fn, w, steps, given, url)
               && ConfigMap(v.config.namespace, "hyperfleet-api-config", "",
                            map["config.yaml" := fn.marshal.api(ApiConfig(given.cr.spec, url))])
                  in Bundle.Render(fn.marshal, Wired(v, given)[0], given.cr.spec).value;
    StoredText(fn, v, given, 0,
      ConfigMap(v.config.namespace, "hyperfleet-api-config", "",
                map["config.yaml" := fn.marshal.api(ApiConfig(given.cr.spec, url))]));
  }
}
