/** Whole runs of the operator: reconciles that succeed or abort anywhere, Secret writes and
    deletions, the Deployment controller at work, out-of-band edits and restarts. */
module ControllerRuns {
  import opened Strings
  import opened Status
  import opened ConfigHash
  import opened Operands
  import opened Rollouts
  import opened ReconcileLoop
  import opened Controller
  import opened Convergence
  import Bundle
  import Conditions
  import Discovery
  import Stamping
  import StatusRuns
  import A = ApiComponent
  import S = SentinelComponent

  /** `Skip` is a reconcile whose configuration is gone or cannot be read. */
  datatype Step =
    | Reconcile(given: Inputs, now: Conditions.Time, stored: bool)
    | Skip
    | WriteSecret(name: string)
    | DeleteSecret(name: string)
    | Observe(key: Key, status: DeploymentStatus)
    | Edit(live: Live)
    | Remove(key: Key)
    | Restart(apiImage: string, sentinelImage: string, broker: Option<S.BrokerInfo>)

  ghost function Next(fn: Functions, w: World, step: Step): World {
    match step
    case Reconcile(given, now, stored) => Reconciled(fn, w, given, now, stored)
    case Skip => w
    case WriteSecret(name) => w.(secrets := w.secrets[name := Decimal(w.nextVersion)], nextVersion := w.nextVersion + 1)
    case DeleteSecret(name) => w.(secrets := w.secrets - {name})
    case Observe(key, status) =>
      if key in w.objects then w.(objects := w.objects[key := w.objects[key].(status := status)]) else w
    case Edit(live) => w.(objects := w.objects[KeyOf(live.owned) := live])
    case Remove(key) => w.(objects := w.objects - {key})
    case Restart(apiImage, sentinelImage, broker) =>
      w.(cache := map[], applied := None, config := Bundle.Config(apiImage, sentinelImage, w.config.namespace, broker))
  }

  ghost function Run(fn: Functions, w: World, steps: seq<Step>): World {
    if |steps| == 0 then w else Next(fn, Run(fn, w, steps[..|steps| - 1]), steps[|steps| - 1])
  }

  // ----- status -----

  /** The rounds of status a run goes through. */
  ghost function Rounds(fn: Functions, w: World, steps: seq<Step>): seq<StatusRuns.Round> {
    if |steps| == 0 then []
    else
      var n := |steps| - 1;
      var before := Rounds(fn, w, steps[..n]);
      if !steps[n].Reconcile? then before
      else
        var found := Body(fn, Run(fn, w, steps[..n]), steps[n].given).findings;
        before + [StatusRuns.Round(found, steps[n].now, steps[n].stored)]
  }

  lemma PublishNext(rounds: seq<StatusRuns.Round>, r: StatusRuns.Round)
    ensures StatusRuns.Run(rounds + [r]) == StatusRuns.Publish(StatusRuns.Run(rounds), r)
  {
  }

  lemma NextStatus(fn: Functions, v: World, step: Step)
    ensures Next(fn, v, step).status ==
            if step.Reconcile?
            then StatusRuns.Publish(v.status, StatusRuns.Round(Body(fn, v, step.given).findings, step.now, step.stored))
            else v.status
  {
  }

  lemma {:induction false} StatusOfRun(fn: Functions, w: World, steps: seq<Step>)
    requires w.status == StatusRuns.INITIAL
    ensures Run(fn, w, steps).status == StatusRuns.Run(Rounds(fn, w, steps))
  {
    if steps == [] {
    } else {
      var n := |steps| - 1;
      var v, step := Run(fn, w, steps[..n]), steps[n];
      StatusOfRun(fn, w, steps[..n]);
      NextStatus(fn, v, step);
      if step.Reconcile? {
        PublishNext(Rounds(fn, w, steps[..n]),
          StatusRuns.Round(Body(fn, v, step.given).findings, step.now, step.stored));
      }
    }
  }

  /** The specification is edited only forward. */
  ghost predicate GenerationsRise(steps: seq<Step>) {
    forall i, j | 0 <= i < j < |steps| && steps[i].Reconcile? && steps[j].Reconcile? ::
      steps[i].given.cr.generation <= steps[j].given.cr.generation
  }

  lemma BodyGeneration(fn: Functions, w: World, given: Inputs)
    ensures Body(fn, w, given).findings.generation == given.cr.generation
  {
    if ReachesLoop(w, given) {
      assert Body(fn, w, given).findings.generation == given.cr.generation;
    }
  }

  lemma {:induction false} RoundsBounded(fn: Functions, w: World, steps: seq<Step>, bound: nat)
    requires forall i | 0 <= i < |steps| && steps[i].Reconcile? :: steps[i].given.cr.generation <= bound
    ensures forall r | r in Rounds(fn, w, steps) :: r.findings.generation <= bound
  {
    if steps == [] {
    } else {
      var n := |steps| - 1;
      RoundsBounded(fn, w, steps[..n], bound);
      if steps[n].Reconcile? {
        BodyGeneration(fn, Run(fn, w, steps[..n]), steps[n].given);
      }
    }
  }

  ghost predicate GoodRounds(rounds: seq<StatusRuns.Round>) {
    StatusRuns.Valid(rounds) && forall q | q in rounds :: GoodReports(q.findings.reports)
  }

  lemma GoodNext(rounds: seq<StatusRuns.Round>, r: StatusRuns.Round)
    requires GoodRounds(rounds) && GoodReports(r.findings.reports)
    requires forall q | q in rounds :: q.findings.generation <= r.findings.generation
    ensures GoodRounds(rounds + [r])
  {
  }

  lemma {:induction false} RoundsGood(fn: Functions, w: World, steps: seq<Step>)
    requires GenerationsRise(steps)
    ensures GoodRounds(Rounds(fn, w, steps))
  {
    if steps == [] {
    } else {
      var n := |steps| - 1;
      RoundsGood(fn, w, steps[..n]);
      if steps[n].Reconcile? {
        var v, given := Run(fn, w, steps[..n]), steps[n].given;
        BodyReportsGood(fn, v, given);
        BodyGeneration(fn, v, given);
        RoundsBounded(fn, w, steps[..n], given.cr.generation);
        GoodNext(Rounds(fn, w, steps[..n]),
          StatusRuns.Round(Body(fn, v, given).findings, steps[n].now, steps[n].stored));
      }
    }
  }

  /** Every status the operator can publish in any run, whatever is edited, deleted, aborted
      or restarted in between: conditions and generations in lockstep, and never
      Progressing=False without Available=True. */
  lemma StatusSafety(fn: Functions, w: World, steps: seq<Step>)
    requires w.status == StatusRuns.INITIAL && GenerationsRise(steps)
    ensures StatusRuns.Lockstep(Run(fn, w, steps).status)
    ensures StatusRuns.TopRolledOut(Run(fn, w, steps).status)
  {
    var rounds := Rounds(fn, w, steps);
    StatusOfRun(fn, w, steps);
    RoundsGood(fn, w, steps);
    StatusRuns.RunLockstep(rounds);
    assert forall q, r | q in rounds && r in q.findings.reports :: StatusRuns.RolledOutIsAvailable(r.conditions);
    StatusRuns.RunRolledOut(rounds);
  }

  /** Transition times over a run of the operator are those of the reported history. */
  lemma TransitionTimes(fn: Functions, w: World, steps: seq<Step>, name: string, kind: string)
    requires w.status == StatusRuns.INITIAL && GenerationsRise(steps)
    ensures var s, rounds := Run(fn, w, steps).status, Rounds(fn, w, steps);
            && StatusRuns.StreakOf(Conditions.Find(s.conditions, kind)) == StatusRuns.TopHistory(rounds, kind)
            && StatusRuns.StreakOf(StatusRuns.Reported(s.components, name, kind))
               == StatusRuns.ComponentHistory(rounds, name, kind)
  {
    StatusOfRun(fn, w, steps);
    RoundsGood(fn, w, steps);
    StatusRuns.TopTimes(Rounds(fn, w, steps), kind);
    StatusRuns.ComponentTimes(Rounds(fn, w, steps), name, kind);
  }

  // ----- discovery -----

  ghost predicate Discovers(w: World, given: Inputs) {
    var r := Bundle.Resolved(given.cr.spec.bundle, w.config);
    r.Ok? && Gathered(r.value, w.secrets, given).1
  }

  /** The resolutions since the process last started. */
  ghost function Attempts(fn: Functions, w: World, steps: seq<Step>): seq<Discovery.Attempt> {
    if |steps| == 0 then []
    else
      var n := |steps| - 1;
      var before := Attempts(fn, w, steps[..n]);
      match steps[n]
      case Restart(_, _, _) => []
      case Reconcile(given, _, _) =>
        if !Discovers(Run(fn, w, steps[..n]), given) then before
        else before + [Discovery.Attempt(given.cr.spec, given.net)]
      case _ => before
  }

  lemma ReconcileCache(fn: Functions, w: World, given: Inputs)
    ensures Body(fn, w, given).cache ==
            if Discovers(w, given) then Discovery.Resolution(w.cache, given.cr.spec, given.net).1 else w.cache
  {
    if ReachesLoop(w, given) {
      BodyIsLoop(fn, w, given);
    } else {
      AbortsUnchanged(fn, w, given);
    }
  }

  lemma {:induction false} CacheOfRun(fn: Functions, w: World, steps: seq<Step>)
    requires w.cache == map[]
    ensures Run(fn, w, steps).cache == Discovery.CacheAfter(Attempts(fn, w, steps))
  {
    if steps == [] {
    } else {
      var n := |steps| - 1;
      var v := Run(fn, w, steps[..n]);
      CacheOfRun(fn, w, steps[..n]);
      if steps[n].Reconcile? {
        var given := steps[n].given;
        ReconcileCache(fn, v, given);
        if Discovers(v, given) {
          var before := Attempts(fn, w, steps[..n]);
          assert (before + [Discovery.Attempt(given.cr.spec, given.net)])[..|before|] == before;
        }
      }
    }
  }

  /** In every run, a reconcile past the Secret loop fails in discovery exactly when discovery
      fails and this issuer has never succeeded since the process started; and the API then
      always has a JWKS source to render. */
  lemma DiscoverySafety(fn: Functions, w: World, steps: seq<Step>, given: Inputs)
    requires w.cache == map[]
    ensures var v := Run(fn, w, steps);
            && (JWKSURL(v, given).Failed? <==>
                  && Discovery.NeedsDiscovery(given.cr.spec)
                  && Discovery.Discovered(given.net, given.cr.spec.auth.issuer).Failed?
                  && forall a | a in Attempts(fn, w, steps) :: !Discovery.Succeeds(a, given.cr.spec.auth.issuer))
            && (ReachesLoop(v, given) ==>
                  Plans(fn, v.config, v.secrets, given.cr.spec, JWKSURL(v, given).value)[0].objects.Ok?)
  {
    var attempts := Attempts(fn, w, steps);
    CacheOfRun(fn, w, steps);
    Discovery.NeverFailsAgain(attempts, given.cr.spec, given.net);
    Discovery.CacheNonEmpty(attempts);
    if ReachesLoop(Run(fn, w, steps), given) {
      ApiAlwaysRenders(fn, Run(fn, w, steps), given);
    }
  }

  // ----- Secrets -----

  /** Every resourceVersion in use was handed out before the next one. */
  ghost predicate Issued(w: World) {
    forall s | s in w.secrets :: exists v: nat :: v < w.nextVersion && w.secrets[s] == Decimal(v)
  }

  lemma DecimalInjective(a: nat, b: nat)
    requires Decimal(a) == Decimal(b)
    ensures a == b
  {
    DecimalIsNumeral(a);
    DecimalIsNumeral(b);
  }

  predicate Touches(step: Step, name: string) {
    step == WriteSecret(name) || step == DeleteSecret(name)
  }

  ghost predicate Newer(w: World, v: World, name: string) {
    name in v.secrets ==> exists n: nat :: w.nextVersion <= n < v.nextVersion && v.secrets[name] == Decimal(n)
  }

  /** What a step does to the Secrets: only the two Secret steps do anything. */
  predicate SecretsNext(v: World, u: World, step: Step) {
    match step
    case WriteSecret(n) => u.secrets == v.secrets[n := Decimal(v.nextVersion)] && u.nextVersion == v.nextVersion + 1
    case DeleteSecret(n) => u.secrets == v.secrets - {n} && u.nextVersion == v.nextVersion
    case _ => u.secrets == v.secrets && u.nextVersion == v.nextVersion
  }

  lemma NextSecrets(fn: Functions, v: World, step: Step)
    ensures SecretsNext(v, Next(fn, v, step), step)
  {
  }

  lemma IssuedNext(v: World, u: World, step: Step)
    requires Issued(v) && SecretsNext(v, u, step)
    ensures Issued(u)
  {
  }

  lemma SecretStep(w: World, v: World, u: World, step: Step, name: string)
    requires SecretsNext(v, u, step) && w.nextVersion <= v.nextVersion
    ensures v.nextVersion <= u.nextVersion
    ensures Touches(step, name) || Newer(w, v, name) ==> Newer(w, u, name)
    ensures !Touches(step, name) ==> Stamping.Version(u.secrets, name) == Stamping.Version(v.secrets, name)
  {
    if step == WriteSecret(name) {
      assert u.secrets[name] == Decimal(v.nextVersion);
    }
  }

  lemma {:induction false} SecretsOfRun(fn: Functions, w: World, steps: seq<Step>, name: string)
    requires Issued(w)
    ensures var u := Run(fn, w, steps);
            && Issued(u) && w.nextVersion <= u.nextVersion
            && if exists step :: step in steps && Touches(step, name) then Newer(w, u, name)
               else Stamping.Version(u.secrets, name) == Stamping.Version(w.secrets, name)
  {
    if steps == [] {
    } else {
      var n := |steps| - 1;
      SecretsOfRun(fn, w, steps[..n], name);
      var v := Run(fn, w, steps[..n]);
      NextSecrets(fn, v, steps[n]);
      IssuedNext(v, Next(fn, v, steps[n]), steps[n]);
      SecretStep(w, v, Next(fn, v, steps[n]), steps[n], name);
      assert steps == steps[..n] + [steps[n]];
    }
  }

  lemma NewerDiffers(w: World, u: World, name: string)
    requires Issued(w) && Newer(w, u, name) && name in w.secrets && name in u.secrets
    ensures w.secrets[name] != u.secrets[name]
  {
    var a: nat :| a < w.nextVersion && w.secrets[name] == Decimal(a);
    var b: nat :| w.nextVersion <= b < u.nextVersion && u.secrets[name] == Decimal(b);
    if Decimal(a) == Decimal(b) {
      DecimalInjective(a, b);
    }
  }

  /** A Secret was written or deleted during the steps and exists before or after them. */
  ghost predicate Rotated(w: World, steps: seq<Step>, u: World, name: string) {
    (exists step :: step in steps && Touches(step, name)) && (name in w.secrets || name in u.secrets)
  }

  /** Between two moments of a run a Secret reads differently exactly when it was written or
      deleted in between and exists at one of them: no version is ever used twice. */
  lemma SecretChangedIff(fn: Functions, w: World, steps: seq<Step>, name: string)
    requires Issued(w)
    ensures Stamping.Version(w.secrets, name) != Stamping.Version(Run(fn, w, steps).secrets, name)
            <==> Rotated(w, steps, Run(fn, w, steps), name)
  {
    var u := Run(fn, w, steps);
    SecretsOfRun(fn, w, steps, name);
    if name in w.secrets && name in u.secrets && exists step :: step in steps && Touches(step, name) {
      NewerDiffers(w, u, name);
    }
  }

  lemma SecretsAsRotated(fn: Functions, w: World, steps: seq<Step>)
    requires Issued(w)
    ensures var u := Run(fn, w, steps);
            forall s :: Stamping.Version(w.secrets, s) != Stamping.Version(u.secrets, s) <==> Rotated(w, steps, u, s)
  {
    var u := Run(fn, w, steps);
    forall s ensures Stamping.Version(w.secrets, s) != Stamping.Version(u.secrets, s) <==> Rotated(w, steps, u, s) {
      SecretChangedIff(fn, w, steps, s);
    }
  }

  ghost predicate MountedDataDiffers(fn: Functions, c: Bundle.Component, d: Bundle.Component, spec: Spec)
    requires Bundle.Render(fn.marshal, c, spec).Ok? && Bundle.Render(fn.marshal, d, spec).Ok?
  {
    exists n :: n in ConfigMapsOf(Bundle.Template(c, spec))
                && Stamping.DataOf(Bundle.Render(fn.marshal, c, spec).value, n)
                   != Stamping.DataOf(Bundle.Render(fn.marshal, d, spec).value, n)
  }

  /** What a component is rolled for: a ConfigMap its pods mount has other data, or a Secret they
      mount or read was rotated. */
  ghost predicate InputsChanged(fn: Functions, w: World, steps: seq<Step>, c: Bundle.Component, d: Bundle.Component,
                                spec: Spec)
    requires Bundle.Render(fn.marshal, c, spec).Ok? && Bundle.Render(fn.marshal, d, spec).Ok?
  {
    MountedDataDiffers(fn, c, d, spec)
    || exists s :: s in SecretsOf(Bundle.Template(c, spec)) && Rotated(w, steps, Run(fn, w, steps), s)
  }

  /** Selective rollout over a run: the bytes hashed for a component change between two moments
      exactly when a mounted ConfigMap's data changed, or a Secret its pods mount or read was
      written or deleted in between and exists at one of the two. */
  lemma RotationRolls(fn: Functions, w: World, steps: seq<Step>, c: Bundle.Component, d: Bundle.Component, spec: Spec)
    requires Issued(w) && Stamping.SameInstance(c, d) && Stamping.PlainText(fn.marshal)
    requires Bundle.Render(fn.marshal, c, spec).Ok? && Bundle.Render(fn.marshal, d, spec).Ok?
    ensures Stamping.Input(fn.marshal, c, spec, w.secrets) !=
            Stamping.Input(fn.marshal, d, spec, Run(fn, w, steps).secrets) <==>
            InputsChanged(fn, w, steps, c, d, spec)
  {
    Stamping.SelectiveRollout(fn.marshal, c, d, spec, w.secrets, Run(fn, w, steps).secrets);
    SecretsAsRotated(fn, w, steps);
  }

  // ----- what reaches the pods -----

  /** The pod template of a component with the rollout hash of its inputs. */
  function HashedTemplate(fn: Functions, c: Bundle.Component, spec: Spec, secrets: map<string, string>): PodTemplate
    requires Bundle.Render(fn.marshal, c, spec).Ok?
  {
    Bundle.Template(c, spec).(annotations :=
      map[Stamping.CONFIG_HASH_ANNOTATION := fn.sha(Stamping.Input(fn.marshal, c, spec, secrets))])
  }

  lemma PlanTemplate(fn: Functions, c: Bundle.Component, spec: Spec, secrets: map<string, string>, ctx: Context)
    requires PlanFor(fn, c, spec, secrets).objects.Ok?
    ensures Bundle.Render(fn.marshal, c, spec).Ok?
    ensures var ds := Desired(PlanFor(fn, c, spec, secrets).objects.value, ctx);
            && ds != [] && ds[|ds| - 1].Deployment? && KeyOf(ds[|ds| - 1]) == Bundle.DeploymentKey(c)
            && ds[|ds| - 1].template == HashedTemplate(fn, c, spec, secrets)
            && Lookup(ds[|ds| - 1].annotations, TEMPLATE_HASH_ANNOTATION) == ctx.digest(ds[|ds| - 1].template)
  {
    Bundle.RenderDeployment(fn.marshal, c, spec);
  }

  lemma HashedIsStored(fn: Functions, plans: seq<Plan>, i: nat, objects: Store, ctx: Context,
                       c: Bundle.Component, spec: Spec, secrets: map<string, string>)
    requires AllConverged(objects, plans, ctx) && i < |plans| && plans[i] == PlanFor(fn, c, spec, secrets)
    ensures Bundle.Render(fn.marshal, c, spec).Ok?
    ensures var k := Bundle.DeploymentKey(c);
            && k in objects && objects[k].owned.template == HashedTemplate(fn, c, spec, secrets)
            && RecordedDigest(objects, k) == ctx.digest(objects[k].owned.template)
  {
    PlanTemplate(fn, c, spec, secrets, ctx);
  }

  /** After a successful reconcile the stored Deployment of every component runs its hashed template,
      and its digest is recorded. */
  lemma StoredTemplate(fn: Functions, w: World, given: Inputs, i: nat)
    requires !Body(fn, w, given).findings.failed && ReachesLoop(w, given) && i <= |Bundle.CLOUD_CAPI_ENTITIES|
    ensures var c := Components(w.config, given.cr.spec, JWKSURL(w, given).value)[i];
            && Bundle.Render(fn.marshal, c, given.cr.spec).Ok?
            && var after, k := Body(fn, w, given).objects, Bundle.DeploymentKey(c);
               && k in after && after[k].owned.template == HashedTemplate(fn, c, given.cr.spec, w.secrets)
               && RecordedDigest(after, k) == fn.digest(after[k].owned.template)
  {
    var c := Components(w.config, given.cr.spec, JWKSURL(w, given).value)[i];
    Converges(fn, w, given);
    HashedIsStored(fn, Plans(fn, w.config, w.secrets, given.cr.spec, JWKSURL(w, given).value), i,
      Body(fn, w, given).objects, ContextFor(fn, given), c, given.cr.spec, w.secrets);
  }

  ghost predicate Injective(sha: string -> string) {
    forall x, y | sha(x) == sha(y) :: x == y
  }

  lemma TemplatesAgreeIff(fn: Functions, c: Bundle.Component, d: Bundle.Component, spec: Spec,
                          s1: map<string, string>, s2: map<string, string>)
    requires Injective(fn.sha) && Bundle.Render(fn.marshal, c, spec).Ok? && Bundle.Render(fn.marshal, d, spec).Ok?
    requires Bundle.Template(c, spec) == Bundle.Template(d, spec)
    ensures HashedTemplate(fn, c, spec, s1) == HashedTemplate(fn, d, spec, s2) <==>
            Stamping.Input(fn.marshal, c, spec, s1) == Stamping.Input(fn.marshal, d, spec, s2)
  {
    var x, y := HashedTemplate(fn, c, spec, s1), HashedTemplate(fn, d, spec, s2);
    if x == y {
      assert x.annotations[Stamping.CONFIG_HASH_ANNOTATION] == y.annotations[Stamping.CONFIG_HASH_ANNOTATION];
    }
  }

  lemma SameTier(config: Bundle.Config, spec: Spec, url: string, other: string, i: nat)
    requires Bundle.Resolved(spec.bundle, config).Ok? && i <= |Bundle.CLOUD_CAPI_ENTITIES|
    ensures Stamping.SameInstance(Components(config, spec, url)[i], Components(config, spec, other)[i])
    ensures Bundle.DeploymentKey(Components(config, spec, url)[i]) == DeploymentAt(config.namespace, i)
  {
  }

  /** A run from one successful reconcile to another of the same spec under the same setup. */
  ghost predicate TwoReconciles(fn: Functions, w: World, first: Step, steps: seq<Step>, second: Step) {
    && first.Reconcile? && second.Reconcile? && first.given.cr.spec == second.given.cr.spec
    && !Body(fn, w, first.given).findings.failed && ReachesLoop(w, first.given)
    && var v := Run(fn, w, [first] + steps);
       v.config == w.config && !Body(fn, v, second.given).findings.failed && ReachesLoop(v, second.given)
  }

  /** Selective rollout as the pods see it, for a digest without collisions: between two successful
      reconciles of a run, the stored pod template of a component stays the same exactly when no
      ConfigMap it mounts got other data and no Secret it mounts or reads was rotated. */
  lemma RotationReachesPods(fn: Functions, w: World, first: Step, steps: seq<Step>, second: Step, i: nat)
    requires Issued(w) && Stamping.PlainText(fn.marshal) && Injective(fn.sha)
    requires i <= |Bundle.CLOUD_CAPI_ENTITIES| && TwoReconciles(fn, w, first, steps, second)
    ensures var v, k := Run(fn, w, [first] + steps), DeploymentAt(w.config.namespace, i);
            var before, after := Next(fn, w, first).objects, Next(fn, v, second).objects;
            var c := Components(w.config, first.given.cr.spec, JWKSURL(w, first.given).value)[i];
            var d := Components(w.config, first.given.cr.spec, JWKSURL(v, second.given).value)[i];
            && k in before && k in after
            && Bundle.Render(fn.marshal, c, first.given.cr.spec).Ok?
            && Bundle.Render(fn.marshal, d, first.given.cr.spec).Ok?
            && (before[k].owned.template != after[k].owned.template <==>
                InputsChanged(fn, w, [first] + steps, c, d, first.given.cr.spec))
  {
    var v, spec := Run(fn, w, [first] + steps), first.given.cr.spec;
    var c := Components(w.config, spec, JWKSURL(w, first.given).value)[i];
    var d := Components(w.config, spec, JWKSURL(v, second.given).value)[i];
    SameTier(w.config, spec, JWKSURL(w, first.given).value, JWKSURL(v, second.given).value, i);
    SameTier(w.config, spec, JWKSURL(v, second.given).value, JWKSURL(w, first.given).value, i);
    StoredTemplate(fn, w, first.given, i);
    StoredTemplate(fn, v, second.given, i);
    Stamping.SelectiveRollout(fn.marshal, c, d, spec, w.secrets, v.secrets);
    TemplatesAgreeIff(fn, c, d, spec, w.secrets, v.secrets);
    RotationRolls(fn, w, [first] + steps, c, d, spec);
  }

  // ----- rollout counting -----

  /** The name of component `i` of the bundle, whatever its images and URLs. */
  function NameAt(i: nat): string
    requires i <= |Bundle.CLOUD_CAPI_ENTITIES|
  {
    if i == 0 then A.COMPONENT_NAME else S.Name(Bundle.CLOUD_CAPI_ENTITIES[i - 1].plural)
  }

  function DeploymentAt(namespace: string, i: nat): Key
    requires i <= |Bundle.CLOUD_CAPI_ENTITIES|
  {
    Key(DeploymentKind, namespace,
        if i == 0 then A.RESOURCE_NAME else S.ResourceName(Bundle.CLOUD_CAPI_ENTITIES[i - 1].plural))
  }

  lemma PlanAt(fn: Functions, config: Bundle.Config, secrets: map<string, string>, spec: Spec, url: string, i: nat)
    requires Bundle.Resolved(spec.bundle, config).Ok? && i <= |Bundle.CLOUD_CAPI_ENTITIES|
    ensures var plans := Plans(fn, config, secrets, spec, url);
            |plans| == 1 + |Bundle.CLOUD_CAPI_ENTITIES| && plans[i].name == NameAt(i)
            && plans[i].deployment == DeploymentAt(config.namespace, i)
  {
  }

  /** The counter of component `i` for one trigger. */
  function EventAt(i: nat, t: Trigger): Event
    requires i <= |Bundle.CLOUD_CAPI_ENTITIES|
  {
    Event(NameAt(i), t)
  }

  /** One step moved the counter exactly by the rollout the stores show, unless hidden, and left
      the recorded digest truthful. */
  ghost predicate CountsExactly(fn: Functions, before: World, after: World, i: nat, t: Trigger, hidden: bool)
    requires i <= |Bundle.CLOUD_CAPI_ENTITIES|
  {
    var k := DeploymentAt(before.config.namespace, i);
    && Count(after.counted, EventAt(i, t)) == Count(before.counted, EventAt(i, t))
         + Bit(Rollout(before.objects, after.objects, k, fn.digest) == Some(t) && !hidden)
    && Honest(after.objects, k, fn.digest)
    && (Recorded(before.objects, k) && NeverEmpty(fn.digest) ==> Recorded(after.objects, k))
  }

  /** What one reconcile counts for one component and trigger. */
  lemma ReconcileCounts(fn: Functions, w: World, given: Inputs, now: Conditions.Time, stored: bool, i: nat, t: Trigger)
    requires i <= |Bundle.CLOUD_CAPI_ENTITIES| && Honest(w.objects, DeploymentAt(w.config.namespace, i), fn.digest)
    ensures CountsExactly(fn, w, Reconciled(fn, w, given, now, stored), i, t,
                          Hidden(w.objects, DeploymentAt(w.config.namespace, i), given.faults, t))
  {
    if ReachesLoop(w, given) {
      var url := JWKSURL(w, given).value;
      BodyIsLoop(fn, w, given);
      PlanAt(fn, w.config, w.secrets, given.cr.spec, url, i);
      ComponentsSound(fn, w.config, given.cr.spec, url, w.secrets);
      LoopCounts(Progress(w.objects, w.counted, [], false),
        Plans(fn, w.config, w.secrets, given.cr.spec, url), ContextFor(fn, given), i, t);
    } else {
      AbortsUnchanged(fn, w, given);
    }
  }

  /** Nobody but the operator writes or deletes this object. */
  predicate Undisturbed(step: Step, k: Key) {
    match step
    case Edit(live) => KeyOf(live.owned) != k
    case Remove(key) => key != k
    case _ => true
  }

  predicate HiddenStep(w: World, step: Step, k: Key, t: Trigger)
    requires k.kind == DeploymentKind
  {
    step.Reconcile? && Hidden(w.objects, k, step.given.faults, t)
  }

  /** What the other steps leave of a Deployment that nobody edits. */
  predicate SameOwned(before: Store, after: Store, k: Key) {
    (k in after <==> k in before) && (k in before ==> after[k].owned == before[k].owned)
  }

  lemma OtherStepsKeep(fn: Functions, w: World, step: Step, k: Key)
    requires !step.Reconcile? && Undisturbed(step, k)
    ensures var u := Next(fn, w, step);
            SameOwned(w.objects, u.objects, k) && u.counted == w.counted && u.config.namespace == w.config.namespace
  {
  }

  lemma NothingCounted(fn: Functions, w: World, u: World, i: nat, t: Trigger)
    requires i <= |Bundle.CLOUD_CAPI_ENTITIES| && Honest(w.objects, DeploymentAt(w.config.namespace, i), fn.digest)
    requires SameOwned(w.objects, u.objects, DeploymentAt(w.config.namespace, i)) && u.counted == w.counted
    ensures CountsExactly(fn, w, u, i, t, false)
  {
  }

  lemma StepCounts(fn: Functions, w: World, step: Step, i: nat, t: Trigger)
    requires i <= |Bundle.CLOUD_CAPI_ENTITIES| && Honest(w.objects, DeploymentAt(w.config.namespace, i), fn.digest)
    requires Undisturbed(step, DeploymentAt(w.config.namespace, i))
    ensures CountsExactly(fn, w, Next(fn, w, step), i, t, HiddenStep(w, step, DeploymentAt(w.config.namespace, i), t))
    ensures Next(fn, w, step).config.namespace == w.config.namespace
  {
    if step.Reconcile? {
      ReconcileCounts(fn, w, step.given, step.now, step.stored, i, t);
    } else {
      OtherStepsKeep(fn, w, step, DeploymentAt(w.config.namespace, i));
      NothingCounted(fn, w, Next(fn, w, step), i, t);
    }
  }

  /** Step `j` of a run replaced the pods of a Deployment for this reason, read off the stores
      before and after it. */
  ghost predicate RollsAt(fn: Functions, w: World, steps: seq<Step>, j: nat, k: Key, t: Trigger)
    requires j < |steps| && k.kind == DeploymentKind
  {
    Rollout(Run(fn, w, steps[..j]).objects, Run(fn, w, steps[..j + 1]).objects, k, fn.digest) == Some(t)
  }

  /** Step `j` rolled the Deployment and the rollout was hidden from the counter. */
  ghost predicate LosesAt(fn: Functions, w: World, steps: seq<Step>, j: nat, k: Key, t: Trigger)
    requires j < |steps| && k.kind == DeploymentKind
  {
    RollsAt(fn, w, steps, j, k, t) && HiddenStep(Run(fn, w, steps[..j]), steps[j], k, t)
  }

  /** How many of the first `n` numbers satisfy `p`. */
  ghost function Tally(n: nat, p: nat -> bool): nat {
    if n == 0 then 0 else Tally(n - 1, p) + Bit(p(n - 1))
  }

  lemma {:induction false} TallyZeroIff(n: nat, p: nat -> bool)
    ensures Tally(n, p) == 0 <==> forall j | 0 <= j < n :: !p(j)
  {
    if n == 0 {
    } else {
      TallyZeroIff(n - 1, p);
    }
  }

  lemma {:induction false} TallyGrows(m: nat, n: nat, p: nat -> bool)
    requires m <= n
    ensures Tally(m, p) <= Tally(n, p)
  {
    if m == n {
    } else {
      TallyGrows(m, n - 1, p);
    }
  }

  ghost function RollSteps(fn: Functions, w: World, steps: seq<Step>, k: Key, t: Trigger): nat -> bool
    requires k.kind == DeploymentKind
  {
    (j: nat) => j < |steps| && RollsAt(fn, w, steps, j, k, t)
  }

  ghost function LossSteps(fn: Functions, w: World, steps: seq<Step>, k: Key, t: Trigger): nat -> bool
    requires k.kind == DeploymentKind
  {
    (j: nat) => j < |steps| && LosesAt(fn, w, steps, j, k, t)
  }

  /** How many of the first `n` steps rolled the Deployment. */
  ghost function Rolls(fn: Functions, w: World, steps: seq<Step>, n: nat, k: Key, t: Trigger): nat
    requires k.kind == DeploymentKind
  {
    Tally(n, RollSteps(fn, w, steps, k, t))
  }

  /** How many of the first `n` steps rolled it unseen. */
  ghost function Lost(fn: Functions, w: World, steps: seq<Step>, n: nat, k: Key, t: Trigger): nat
    requires k.kind == DeploymentKind
  {
    Tally(n, LossSteps(fn, w, steps, k, t))
  }

  /** Nobody but the operator touches the Deployment of component `i`, and the digests recorded
      on it at the start are truthful. */
  ghost predicate Coherent(fn: Functions, w: World, steps: seq<Step>, i: nat)
    requires i <= |Bundle.CLOUD_CAPI_ENTITIES|
  {
    var k := DeploymentAt(w.config.namespace, i);
    Honest(w.objects, k, fn.digest) && forall j | 0 <= j < |steps| :: Undisturbed(steps[j], k)
  }

  /** The books balance: gained plus lost is rolled. */
  ghost predicate Balanced(fn: Functions, w: World, steps: seq<Step>, n: nat, u: World, i: nat, t: Trigger)
    requires i <= |Bundle.CLOUD_CAPI_ENTITIES|
  {
    var k := DeploymentAt(w.config.namespace, i);
    && Count(u.counted, EventAt(i, t)) + Lost(fn, w, steps, n, k, t)
       == Count(w.counted, EventAt(i, t)) + Rolls(fn, w, steps, n, k, t)
    && Honest(u.objects, k, fn.digest) && u.config.namespace == w.config.namespace
    && (Recorded(w.objects, k) && NeverEmpty(fn.digest) ==> Recorded(u.objects, k))
  }

  lemma BalancedNext(fn: Functions, w: World, steps: seq<Step>, n: nat, v: World, u: World, i: nat, t: Trigger)
    requires i <= |Bundle.CLOUD_CAPI_ENTITIES| && n < |steps| && Balanced(fn, w, steps, n, v, i, t)
    requires v == Run(fn, w, steps[..n]) && u == Run(fn, w, steps[..n + 1])
    requires CountsExactly(fn, v, u, i, t, HiddenStep(v, steps[n], DeploymentAt(v.config.namespace, i), t))
    requires u.config.namespace == v.config.namespace
    ensures Balanced(fn, w, steps, n + 1, u, i, t)
  {
  }

  /** Conservation of rollouts, over every prefix of every run without out-of-band changes of the
      Deployment: what the counter of a component gained for a trigger, plus what was lost, is
      what the stores show. Failed applies, repeats and all other steps add nothing. */
  lemma {:induction false} RolloutConservation(fn: Functions, w: World, steps: seq<Step>, n: nat, i: nat, t: Trigger)
    requires i <= |Bundle.CLOUD_CAPI_ENTITIES| && n <= |steps| && Coherent(fn, w, steps, i)
    ensures Balanced(fn, w, steps, n, Run(fn, w, steps[..n]), i, t)
  {
    if n == 0 {
    } else {
      var m := n - 1;
      var v := Run(fn, w, steps[..m]);
      RolloutConservation(fn, w, steps, m, i, t);
      RunNext(fn, w, steps, m);
      StepCounts(fn, v, steps[m], i, t);
      BalancedNext(fn, w, steps, m, v, Next(fn, v, steps[m]), i, t);
    }
  }

  lemma RunNext(fn: Functions, w: World, steps: seq<Step>, j: nat)
    requires j < |steps|
    ensures Run(fn, w, steps[..j + 1]) == Next(fn, Run(fn, w, steps[..j]), steps[j])
  {
    assert steps[..j + 1][..j] == steps[..j];
  }

  lemma LostIff(fn: Functions, w: World, steps: seq<Step>, k: Key, t: Trigger)
    requires k.kind == DeploymentKind
    ensures Lost(fn, w, steps, |steps|, k, t) == 0 <==> forall j | 0 <= j < |steps| :: !LosesAt(fn, w, steps, j, k, t)
  {
    var p := LossSteps(fn, w, steps, k, t);
    TallyZeroIff(|steps|, p);
    assert forall j: nat | j < |steps| :: p(j) == LosesAt(fn, w, steps, j, k, t);
  }

  /** The counter never exceeds the rollouts, and it equals them exactly when no step both rolled
      the Deployment and was hidden from the counter. */
  lemma CounterExactIff(fn: Functions, w: World, steps: seq<Step>, i: nat, t: Trigger)
    requires i <= |Bundle.CLOUD_CAPI_ENTITIES| && Coherent(fn, w, steps, i)
    ensures var k := DeploymentAt(w.config.namespace, i);
            var counted := Count(Run(fn, w, steps).counted, EventAt(i, t));
            var rolled := Count(w.counted, EventAt(i, t)) + Rolls(fn, w, steps, |steps|, k, t);
            && counted <= rolled
            && (counted == rolled <==> forall j | 0 <= j < |steps| :: !LosesAt(fn, w, steps, j, k, t))
  {
    assert steps[..|steps|] == steps;
    RolloutConservation(fn, w, steps, |steps|, i, t);
    LostIff(fn, w, steps, DeploymentAt(w.config.namespace, i), t);
  }

  /** A rollout lost once is lost for good: however the run goes on, retries included, the counter
      stays behind. */
  lemma LostForGood(fn: Functions, w: World, steps: seq<Step>, j: nat, n: nat, i: nat, t: Trigger)
    requires i <= |Bundle.CLOUD_CAPI_ENTITIES| && j < n <= |steps| && Coherent(fn, w, steps, i)
    requires LosesAt(fn, w, steps, j, DeploymentAt(w.config.namespace, i), t)
    ensures var k := DeploymentAt(w.config.namespace, i);
            Count(Run(fn, w, steps[..n]).counted, EventAt(i, t))
            < Count(w.counted, EventAt(i, t)) + Rolls(fn, w, steps, n, k, t)
  {
    RolloutConservation(fn, w, steps, n, i, t);
    TallyGrows(j + 1, n, LossSteps(fn, w, steps, DeploymentAt(w.config.namespace, i), t));
  }

  /** Where every stored digest was written by this operator, what hides a rollout is a failing
      request and nothing else. */
  lemma HiddenIffUnobserved(fn: Functions, w: World, steps: seq<Step>, j: nat, i: nat, t: Trigger)
    requires i <= |Bundle.CLOUD_CAPI_ENTITIES| && j < |steps| && Coherent(fn, w, steps, i)
    requires Recorded(w.objects, DeploymentAt(w.config.namespace, i)) && NeverEmpty(fn.digest)
    ensures var k := DeploymentAt(w.config.namespace, i);
            HiddenStep(Run(fn, w, steps[..j]), steps[j], k, t) <==>
            steps[j].Reconcile? && !Observed(steps[j].given.faults, k)
  {
    RolloutConservation(fn, w, steps, j, i, t);
  }
}
