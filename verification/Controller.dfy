/** One reconcile as a function of the cluster it finds: what it resolves, in which order it
    may abort, what it applies, counts and publishes. */
module Controller {
  import opened Strings
  import opened Sorting
  import opened Conditions
  import opened Status
  import opened ConfigHash
  import opened Operands
  import opened Rollouts
  import opened ReconcileLoop
  import Bundle
  import Stamping
  import Discovery
  import A = ApiComponent
  import StatusRuns

  /** The parts whose insides do not matter here: marshallers, SHA-256, the template digest, the
      JSON of a spec and the shortened SHA-256 behind the applied-config metric. */
  datatype Functions = Functions(
    marshal: Bundle.Marshal,
    sha: string -> string,
    digest: PodTemplate -> string,
    json: Spec -> string,
    summary: string -> string)

  /** What one reconcile meets besides the cluster. */
  datatype Inputs = Inputs(cr: Resource, secretFails: (string, string) -> bool, net: Discovery.Net, faults: Faults)

  /** The cluster and the operator process. `secrets` holds the resourceVersions of the
      Secrets in the operator's namespace, `counted` every increment of the rollout counter,
      `applied` the label of the applied-config metric. */
  datatype World = World(
    objects: Store,
    secrets: map<string, string>,
    nextVersion: nat,
    status: Status,
    cache: map<string, string>,
    counted: seq<Event>,
    applied: Option<string>,
    config: Bundle.Config)

  // ----- the Secret loop -----

  /** The roles whose Secret is absent, in the order of the references. */
  function Missing(es: seq<HashEntry>): (r: seq<string>)
    ensures forall id :: id in r <==> exists e :: e in es && !e.present && e.id == id
  {
    if |es| == 0 then []
    else
      var n := |es| - 1;
      assert es == es[..n] + [es[n]];
      Missing(es[..n]) + if es[n].present then [] else [es[n].id]
  }

  predicate SecretReadFails(given: Inputs, name: string, refs: seq<SecretReference>) {
    exists r :: r in refs && given.secretFails(name, r.secret)
  }

  /** Missing roles of the components before the first failing read, and whether none fails. */
  function Gathered(cs: seq<Bundle.Component>, secrets: map<string, string>, given: Inputs): (seq<string>, bool) {
    if |cs| == 0 then ([], true)
    else
      var n := |cs| - 1;
      var (missing, ok) := Gathered(cs[..n], secrets, given);
      var refs := Bundle.ReferencedSecrets(cs[n], given.cr.spec);
      if !ok || SecretReadFails(given, Bundle.Name(cs[n]), refs) then (missing, false)
      else (missing + Missing(Stamping.EntriesFor(secrets, refs)), true)
  }

  /** Some Secret read of the reconcile fails, other than with "not found". */
  ghost predicate SomeReadFails(cs: seq<Bundle.Component>, given: Inputs) {
    exists c :: c in cs && SecretReadFails(given, Bundle.Name(c), Bundle.ReferencedSecrets(c, given.cr.spec))
  }

  lemma {:induction false} GatheredIff(cs: seq<Bundle.Component>, secrets: map<string, string>, given: Inputs)
    ensures Gathered(cs, secrets, given).1 <==> !SomeReadFails(cs, given)
  {
    if cs == [] {
    } else {
      var n := |cs| - 1;
      GatheredIff(cs[..n], secrets, given);
      assert cs == cs[..n] + [cs[n]];
    }
  }

  lemma {:induction false} GatheredStops(cs: seq<Bundle.Component>, i: nat, secrets: map<string, string>, given: Inputs)
    requires i <= |cs| && !Gathered(cs[..i], secrets, given).1
    ensures Gathered(cs, secrets, given) == Gathered(cs[..i], secrets, given)
  {
    var n := |cs| - 1;
    if i <= n {
      assert cs[..n][..i] == cs[..i];
      GatheredStops(cs[..n], i, secrets, given);
    } else {
      assert cs[..i] == cs;
    }
  }

  /** One more component's references read without failure. */
  lemma GatheredNext(cs: seq<Bundle.Component>, i: nat, secrets: map<string, string>, given: Inputs)
    requires i < |cs| && Gathered(cs[..i], secrets, given).1
    ensures var refs := Bundle.ReferencedSecrets(cs[i], given.cr.spec);
            Gathered(cs[..i + 1], secrets, given) ==
            if SecretReadFails(given, Bundle.Name(cs[i]), refs) then (Gathered(cs[..i], secrets, given).0, false)
            else (Gathered(cs[..i], secrets, given).0 + Missing(Stamping.EntriesFor(secrets, refs)), true)
  {
    assert cs[..i + 1][..i] == cs[..i];
  }

  // ----- the component loop -----

  /** The rollout hash of what component `c` rendered. */
  function RolloutHash(fn: Functions, c: Bundle.Component, objs: seq<Operand>, spec: Spec,
                       secrets: map<string, string>): string {
    fn.sha(Stamping.HashInput(objs, Bundle.Rollout(c),
             Stamping.EntriesFor(secrets, Bundle.ReferencedSecrets(c, spec))))
  }

  function PlanFor(fn: Functions, c: Bundle.Component, spec: Spec, secrets: map<string, string>): Plan {
    Plan(Bundle.Name(c), Bundle.Subject(c), Bundle.DeploymentKey(c),
      match Bundle.Render(fn.marshal, c, spec)
      case Failed => Failed
      case Ok(objs) =>
        Ok(Stamping.Stamped(objs, Bundle.Rollout(c).deployment, RolloutHash(fn, c, objs, spec, secrets))))
  }

  function PlansFor(fn: Functions, cs: seq<Bundle.Component>, spec: Spec, secrets: map<string, string>): (r: seq<Plan>)
    ensures |r| == |cs| && forall i | 0 <= i < |cs| :: r[i] == PlanFor(fn, cs[i], spec, secrets)
  {
    seq(|cs|, i requires 0 <= i < |cs| => PlanFor(fn, cs[i], spec, secrets))
  }

  /** The rollout hash of a component, "" if it does not render. */
  function HashFor(fn: Functions, c: Bundle.Component, spec: Spec, secrets: map<string, string>): string {
    match Bundle.Render(fn.marshal, c, spec)
    case Failed => ""
    case Ok(objs) => RolloutHash(fn, c, objs, spec, secrets)
  }

  function HashesFor(fn: Functions, cs: seq<Bundle.Component>, spec: Spec, secrets: map<string, string>):
      (r: seq<string>)
    ensures |r| == |cs| && forall i | 0 <= i < |cs| :: r[i] == HashFor(fn, cs[i], spec, secrets)
  {
    seq(|cs|, i requires 0 <= i < |cs| => HashFor(fn, cs[i], spec, secrets))
  }

  /** What `hashConfig` makes of a spec and the rollout hashes of the components. */
  function ConfigDigest(fn: Functions, cs: seq<Bundle.Component>, spec: Spec, secrets: map<string, string>): string {
    fn.summary(JoinNul([fn.json(spec)] + HashesFor(fn, cs, spec, secrets)))
  }

  function ContextFor(fn: Functions, given: Inputs): Context {
    Context(fn.digest, given.cr.name, given.faults)
  }

  /** The components of a resolved bundle with both URLs set. */
  function Components(config: Bundle.Config, spec: Spec, jwksURL: string): (r: seq<Bundle.Component>)
    requires Bundle.Resolved(spec.bundle, config).Ok?
  {
    Bundle.Tier(config, Bundle.CLOUD_CAPI_ENTITIES, A.APIBaseURL(spec, config.namespace), jwksURL)
  }

  // ----- one reconcile -----

  datatype Outcome = Outcome(objects: Store, cache: map<string, string>, counted: seq<Event>, applied: Option<string>,
                             findings: Findings)

  /** Past the Secret loop and discovery: the loop over the wired components. */
  function Rendered(fn: Functions, w: World, given: Inputs, missing: seq<string>, jwksURL: string,
                    cache: map<string, string>): Outcome
    requires Bundle.Resolved(given.cr.spec.bundle, w.config).Ok?
  {
    var cs := Components(w.config, given.cr.spec, jwksURL);
    var plans := PlansFor(fn, cs, given.cr.spec, w.secrets);
    var p := Loop(Progress(w.objects, w.counted, [], false), plans, ContextFor(fn, given));
    Outcome(p.objects, cache, p.counted,
            if p.failed then w.applied else Some(ConfigDigest(fn, cs, given.cr.spec, w.secrets)),
            Findings(given.cr.generation, p.reports, !p.failed, missing, p.failed))
  }

  function Aborted(w: World, given: Inputs, missing: seq<string>): Outcome {
    Outcome(w.objects, w.cache, w.counted, w.applied, Findings(given.cr.generation, [], false, missing, true))
  }

  /** Past the Secret loop: discovery, then the component loop. */
  ghost function PastSecrets(fn: Functions, w: World, given: Inputs, missing: seq<string>): Outcome
    requires Bundle.Resolved(given.cr.spec.bundle, w.config).Ok?
  {
    var (url, cache) := Discovery.Resolution(w.cache, given.cr.spec, given.net);
    if url.Failed? then Aborted(w, given, missing) else Rendered(fn, w, given, missing, url.value, cache)
  }

  /** Resolve, read Secrets, discover, then render and apply; the first error ends it. */
  ghost function Body(fn: Functions, w: World, given: Inputs): Outcome {
    match Bundle.Resolved(given.cr.spec.bundle, w.config)
    case Failed => Aborted(w, given, [])
    case Ok(cs) =>
      var (missing, ok) := Gathered(cs, w.secrets, given);
      if !ok then Aborted(w, given, missing) else PastSecrets(fn, w, given, OrderedSet(missing))
  }

  /** The body followed by the deferred status update, written only when it changes. */
  ghost function Reconciled(fn: Functions, w: World, given: Inputs, now: Time, stored: bool): World {
    var o := Body(fn, w, given);
    w.(objects := o.objects, cache := o.cache, counted := o.counted, applied := o.applied,
       status := StatusRuns.Publish(w.status, StatusRuns.Round(o.findings, now, stored)))
  }

  ghost predicate Fails(fn: Functions, w: World, given: Inputs, now: Time, stored: bool) {
    var f := Body(fn, w, given).findings;
    f.failed || (StatusRuns.Changed(w.status, f, now) && !stored)
  }

  // ----- the wired components are sound plans -----

  lemma StampedKeys(fn: Functions, c: Bundle.Component, spec: Spec, secrets: map<string, string>, i: nat)
    requires var plan := PlanFor(fn, c, spec, secrets); plan.objects.Ok? && i < |plan.objects.value|
    ensures var objs := PlanFor(fn, c, spec, secrets).objects.value;
            |objs| == |Bundle.Keys(c)| && KeyOf(objs[i]) == Bundle.Keys(c)[i]
            && objs[i].Deployment? == Bundle.Render(fn.marshal, c, spec).value[i].Deployment?
  {
    Bundle.RenderKeys(fn.marshal, c, spec);
  }

  ghost predicate OwnKeys(c: Bundle.Component) {
    forall p, q | 0 <= p < q < |Bundle.Keys(c)| :: Bundle.Keys(c)[p] != Bundle.Keys(c)[q]
  }

  lemma PlanSound(fn: Functions, c: Bundle.Component, spec: Spec, secrets: map<string, string>)
    requires OwnKeys(c)
    ensures SoundPlan(PlanFor(fn, c, spec, secrets))
  {
    var plan := PlanFor(fn, c, spec, secrets);
    if plan.objects.Ok? {
      var objs := plan.objects.value;
      Bundle.RenderDeployment(fn.marshal, c, spec);
      forall i, j | 0 <= i < j < |objs| ensures KeyOf(objs[i]) != KeyOf(objs[j]) {
        StampedKeys(fn, c, spec, secrets, i);
        StampedKeys(fn, c, spec, secrets, j);
      }
      forall i | 0 <= i < |objs| - 1 ensures !objs[i].Deployment? {
        StampedKeys(fn, c, spec, secrets, i);
      }
      StampedKeys(fn, c, spec, secrets, |objs| - 1);
    }
  }

  lemma PlanOwnsKeys(fn: Functions, c: Bundle.Component, spec: Spec, secrets: map<string, string>, k: Key)
    requires Owns(PlanFor(fn, c, spec, secrets), k)
    ensures k in Bundle.Keys(c)
  {
    var objs := PlanFor(fn, c, spec, secrets).objects.value;
    var o :| o in objs && KeyOf(o) == k;
    var i :| 0 <= i < |objs| && objs[i] == o;
    StampedKeys(fn, c, spec, secrets, i);
  }

  lemma DeploymentIsOwn(c: Bundle.Component)
    ensures Bundle.DeploymentKey(c) in Bundle.Keys(c)
  {
  }

  lemma PlansSeparate(fn: Functions, c: Bundle.Component, d: Bundle.Component, spec: Spec, secrets: map<string, string>)
    requires Bundle.Name(c) != Bundle.Name(d)
    requires forall k :: !(k in Bundle.Keys(c) && k in Bundle.Keys(d))
    ensures Separate(PlanFor(fn, c, spec, secrets), PlanFor(fn, d, spec, secrets))
  {
    var a, b := PlanFor(fn, c, spec, secrets), PlanFor(fn, d, spec, secrets);
    forall k ensures Owns(a, k) ==> k in Bundle.Keys(c) {
      if Owns(a, k) { PlanOwnsKeys(fn, c, spec, secrets, k); }
    }
    forall k ensures Owns(b, k) ==> k in Bundle.Keys(d) {
      if Owns(b, k) { PlanOwnsKeys(fn, d, spec, secrets, k); }
    }
    DeploymentIsOwn(c);
    DeploymentIsOwn(d);
  }

  lemma DisjointKeys(cs: seq<Bundle.Component>, i: nat, j: nat)
    requires Bundle.Disjoint(cs) && i < j < |cs|
    ensures forall k :: !(k in Bundle.Keys(cs[i]) && k in Bundle.Keys(cs[j]))
  {
  }

  lemma DisjointSound(fn: Functions, cs: seq<Bundle.Component>, spec: Spec, secrets: map<string, string>)
    requires Bundle.Disjoint(cs)
    ensures SoundPlans(PlansFor(fn, cs, spec, secrets))
  {
    var plans := PlansFor(fn, cs, spec, secrets);
    forall i | 0 <= i < |plans| ensures SoundPlan(plans[i]) {
      assert OwnKeys(cs[i]);
      PlanSound(fn, cs[i], spec, secrets);
    }
    forall i, j | 0 <= i < j < |plans| ensures Separate(plans[i], plans[j]) {
      DisjointKeys(cs, i, j);
      PlansSeparate(fn, cs[i], cs[j], spec, secrets);
    }
    SoundPlansFrom(plans);
  }

  /** The components of every resolvable bundle are disjoint, so their plans are sound. */
  lemma ComponentsSound(fn: Functions, config: Bundle.Config, spec: Spec, jwksURL: string, secrets: map<string, string>)
    requires Bundle.Resolved(spec.bundle, config).Ok?
    ensures Bundle.Disjoint(Components(config, spec, jwksURL))
    ensures SoundPlans(PlansFor(fn, Components(config, spec, jwksURL), spec, secrets))
  {
    Bundle.CloudCAPISeparated();
    Bundle.DisjointIff(config, Bundle.CLOUD_CAPI_ENTITIES, A.APIBaseURL(spec, config.namespace), jwksURL);
    DisjointSound(fn, Components(config, spec, jwksURL), spec, secrets);
  }

  // ----- the missing list -----

  /** Some component refers to an absent Secret under this role. */
  ghost predicate RoleMissing(cs: seq<Bundle.Component>, secrets: map<string, string>, spec: Spec, role: string) {
    exists c, r :: c in cs && r in Bundle.ReferencedSecrets(c, spec) && r.role == role && r.secret !in secrets
  }

  lemma RoleMissingNext(cs: seq<Bundle.Component>, secrets: map<string, string>, spec: Spec, role: string)
    requires cs != []
    ensures var n := |cs| - 1;
            (RoleMissing(cs, secrets, spec, role) <==>
             RoleMissing(cs[..n], secrets, spec, role)
             || exists r :: r in Bundle.ReferencedSecrets(cs[n], spec) && r.role == role && r.secret !in secrets)
  {
  }

  lemma {:induction false} GatheredMissing(cs: seq<Bundle.Component>, secrets: map<string, string>, given: Inputs,
                                           role: string)
    requires Gathered(cs, secrets, given).1
    ensures role in Gathered(cs, secrets, given).0 <==> RoleMissing(cs, secrets, given.cr.spec, role)
  {
    if cs == [] {
    } else {
      var n := |cs| - 1;
      GatheredMissing(cs[..n], secrets, given, role);
      RoleMissingNext(cs, secrets, given.cr.spec, role);
      MissingRoles(secrets, Bundle.ReferencedSecrets(cs[n], given.cr.spec), role);
    }
  }

  lemma MissingRoles(secrets: map<string, string>, refs: seq<SecretReference>, role: string)
    ensures role in Missing(Stamping.EntriesFor(secrets, refs)) <==>
            exists r :: r in refs && r.role == role && r.secret !in secrets
  {
  }
}
