/** Which steps of a run roll a Deployment, which of those rollouts the counter never sees, and
    what a rotation adds to it. */
module LostRollouts {
  import opened Strings
  import opened Operands
  import opened Rollouts
  import opened ReconcileLoop
  import opened Controller
  import opened Convergence
  import opened ControllerRuns
  import Bundle
  import Conditions
  import Discovery
  import MissingSecrets
  import Stamping

  // ----- which steps roll -----

  /** Every request of the reconcile up to the write of the Deployment of component `i` succeeds,
      and the write itself is carried out. */
  ghost predicate Writes(fn: Functions, v: World, given: Inputs, i: nat) {
    ReachesLoop(v, given)
    && Reaches(Plans(fn, v.config, v.secrets, given.cr.spec, JWKSURL(v, given).value), i, given.faults)
  }

  /** Why that write replaces the pods, told from what is stored and what is rendered. */
  ghost function Pending(fn: Functions, v: World, given: Inputs, i: nat): Option<Trigger>
    requires i <= |Bundle.CLOUD_CAPI_ENTITIES| && Writes(fn, v, given, i)
  {
    var k := DeploymentAt(v.config.namespace, i);
    var c := Components(v.config, given.cr.spec, JWKSURL(v, given).value)[i];
    if k !in v.objects then Some(Create)
    else Replaces(v.objects[k].owned.template, HashedTemplate(fn, c, given.cr.spec, v.secrets), fn.digest)
  }

  lemma HoldsTemplate(fn: Functions, c: Bundle.Component, spec: Spec, secrets: map<string, string>, objects: Store,
                      ctx: Context)
    requires Holds(objects, PlanFor(fn, c, spec, secrets), ctx)
    ensures Bundle.Render(fn.marshal, c, spec).Ok?
    ensures var k := Bundle.DeploymentKey(c);
            k in objects && objects[k].owned.template == HashedTemplate(fn, c, spec, secrets)
  {
    PlanTemplate(fn, c, spec, secrets, ctx);
  }

  lemma UntouchedNoRollout(before: Store, after: Store, k: Key, digest: PodTemplate -> string)
    requires k.kind == DeploymentKind && SameOwned(before, after, k)
    ensures Rollout(before, after, k, digest) == None
  {
  }

  lemma WriteRolls(fn: Functions, v: World, given: Inputs, i: nat)
    requires i <= |Bundle.CLOUD_CAPI_ENTITIES| && Writes(fn, v, given, i)
    ensures Rollout(v.objects, Body(fn, v, given).objects, DeploymentAt(v.config.namespace, i), fn.digest) ==
            Pending(fn, v, given, i)
  {
    var spec, url := given.cr.spec, JWKSURL(v, given).value;
    var plans := Plans(fn, v.config, v.secrets, spec, url);
    BodyIsLoop(fn, v, given);
    PlanAt(fn, v.config, v.secrets, spec, url, i);
    ComponentsSound(fn, v.config, spec, url, v.secrets);
    LoopReaches(Progress(v.objects, v.counted, [], false), plans, ContextFor(fn, given), i);
    HoldsTemplate(fn, Components(v.config, spec, url)[i], spec, v.secrets, Body(fn, v, given).objects,
      ContextFor(fn, given));
  }

  lemma NoWriteNoRollout(fn: Functions, v: World, given: Inputs, i: nat)
    requires i <= |Bundle.CLOUD_CAPI_ENTITIES| && !Writes(fn, v, given, i)
    ensures Rollout(v.objects, Body(fn, v, given).objects, DeploymentAt(v.config.namespace, i), fn.digest) == None
  {
    var k := DeploymentAt(v.config.namespace, i);
    if ReachesLoop(v, given) {
      var spec, url := given.cr.spec, JWKSURL(v, given).value;
      BodyIsLoop(fn, v, given);
      PlanAt(fn, v.config, v.secrets, spec, url, i);
      ComponentsSound(fn, v.config, spec, url, v.secrets);
      LoopMisses(Progress(v.objects, v.counted, [], false), Plans(fn, v.config, v.secrets, spec, url),
        ContextFor(fn, given), i);
    } else {
      AbortsUnchanged(fn, v, given);
    }
    UntouchedNoRollout(v.objects, Body(fn, v, given).objects, k, fn.digest);
  }

  /** What the step does to the Deployment, told from the world before it. */
  ghost predicate WillRoll(fn: Functions, v: World, step: Step, i: nat, t: Trigger)
    requires i <= |Bundle.CLOUD_CAPI_ENTITIES|
  {
    step.Reconcile? && Writes(fn, v, step.given, i) && Pending(fn, v, step.given, i) == Some(t)
  }

  lemma StepRollsIff(fn: Functions, v: World, step: Step, i: nat, t: Trigger)
    requires i <= |Bundle.CLOUD_CAPI_ENTITIES| && Undisturbed(step, DeploymentAt(v.config.namespace, i))
    ensures Rollout(v.objects, Next(fn, v, step).objects, DeploymentAt(v.config.namespace, i), fn.digest) == Some(t)
            <==> WillRoll(fn, v, step, i, t)
  {
    var k := DeploymentAt(v.config.namespace, i);
    if !step.Reconcile? {
      OtherStepsKeep(fn, v, step, k);
      UntouchedNoRollout(v.objects, Next(fn, v, step).objects, k, fn.digest);
    } else if Writes(fn, v, step.given, i) {
      WriteRolls(fn, v, step.given, i);
    } else {
      NoWriteNoRollout(fn, v, step.given, i);
    }
  }

  /** Exactly which steps of a run roll a Deployment: the reconciles that get as far as writing it,
      where it is absent or its template would replace the pods. */
  lemma RollsExactlyWhen(fn: Functions, w: World, steps: seq<Step>, j: nat, i: nat, t: Trigger)
    requires i <= |Bundle.CLOUD_CAPI_ENTITIES| && j < |steps| && Coherent(fn, w, steps, i)
    ensures RollsAt(fn, w, steps, j, DeploymentAt(w.config.namespace, i), t) <==>
            WillRoll(fn, Run(fn, w, steps[..j]), steps[j], i, t)
  {
    RolloutConservation(fn, w, steps, j, i, t);
    RunNext(fn, w, steps, j);
    StepRollsIff(fn, Run(fn, w, steps[..j]), steps[j], i, t);
  }

  /** Exactly which steps lose a rollout. */
  lemma LosesExactlyWhen(fn: Functions, w: World, steps: seq<Step>, j: nat, i: nat, t: Trigger)
    requires i <= |Bundle.CLOUD_CAPI_ENTITIES| && j < |steps| && Coherent(fn, w, steps, i)
    ensures var v, k := Run(fn, w, steps[..j]), DeploymentAt(w.config.namespace, i);
            LosesAt(fn, w, steps, j, k, t) <==>
            WillRoll(fn, v, steps[j], i, t) && Hidden(v.objects, k, steps[j].given.faults, t)
  {
    RollsExactlyWhen(fn, w, steps, j, i, t);
  }

  /** A reconcile that writes the Deployment while its detection read, its reply or its refresh
      fails loses the rollout, whatever its cause: a creation, an image or the configuration. */
  lemma UnobservedWriteLoses(fn: Functions, w: World, steps: seq<Step>, j: nat, i: nat, t: Trigger)
    requires i <= |Bundle.CLOUD_CAPI_ENTITIES| && j < |steps| && Coherent(fn, w, steps, i)
    requires steps[j].Reconcile? && Writes(fn, Run(fn, w, steps[..j]), steps[j].given, i)
    requires !Observed(steps[j].given.faults, DeploymentAt(w.config.namespace, i))
    ensures var v, k := Run(fn, w, steps[..j]), DeploymentAt(w.config.namespace, i);
            && (LosesAt(fn, w, steps, j, k, t) <==> Pending(fn, v, steps[j].given, i) == Some(t))
            && (k !in v.objects ==> LosesAt(fn, w, steps, j, k, Create))
  {
    LosesExactlyWhen(fn, w, steps, j, i, t);
    LosesExactlyWhen(fn, w, steps, j, i, Create);
    RolloutConservation(fn, w, steps, j, i, t);
  }

  // ----- a rollout that is lost -----

  /** Only the refresh of this object fails. */
  function RefreshFails(k: Key): Faults {
    Faults(_ => false, _ => Acknowledged, other => other == k)
  }

  function ExampleGiven(net: Discovery.Net): Inputs {
    MissingSecrets.ExampleInputs("", net, RefreshFails(DeploymentAt("ns", 0)))
  }

  lemma ExampleReachesLoop(net: Discovery.Net, faults: Faults)
    ensures ReachesLoop(MissingSecrets.ExampleWorld(), MissingSecrets.ExampleInputs("", net, faults))
  {
    var w, given := MissingSecrets.ExampleWorld(), MissingSecrets.ExampleInputs("", net, faults);
    MissingSecrets.ExampleFails(net, faults);
    GatheredIff(Bundle.Resolved(CloudCAPI, w.config).value, w.secrets, given);
  }

  lemma OthersAnswered(plan: Plan)
    requires SoundPlan(plan) && plan.objects.Ok?
    ensures ReachesLast(plan, RefreshFails(plan.deployment))
  {
  }

  /** Whatever is stored, the API comes first and is written. */
  lemma FirstIsWritten(fn: Functions, w: World, given: Inputs)
    requires ReachesLoop(w, given) && Discovery.NonEmptyURLs(w.cache)
    requires given.faults == RefreshFails(DeploymentAt(w.config.namespace, 0))
    ensures Writes(fn, w, given, 0)
  {
    var spec, url := given.cr.spec, JWKSURL(w, given).value;
    var plans := Plans(fn, w.config, w.secrets, spec, url);
    ApiAlwaysRenders(fn, w, given);
    PlanAt(fn, w.config, w.secrets, spec, url, 0);
    ComponentsSound(fn, w.config, spec, url, w.secrets);
    SoundAt(plans, 0);
    OthersAnswered(plans[0]);
  }

  lemma {:induction false} SoundAt(plans: seq<Plan>, i: nat)
    requires SoundPlans(plans) && i < |plans|
    ensures SoundPlan(plans[i])
  {
    if i == |plans| - 1 {
    } else {
      SoundAt(plans[..|plans| - 1], i);
    }
  }

  /** On an empty cluster, the refresh of the API Deployment fails after it was created: the creation
      is never counted, however the run goes on without out-of-band changes of that Deployment. */
  lemma CreationNeverCounted(fn: Functions, net: Discovery.Net, now: Conditions.Time, stored: bool, rest: seq<Step>,
                             n: nat)
    requires forall step | step in rest :: Undisturbed(step, DeploymentAt("ns", 0))
    requires 1 <= n <= |rest| + 1
    ensures var w, steps := MissingSecrets.ExampleWorld(), [Reconcile(ExampleGiven(net), now, stored)] + rest;
            && Coherent(fn, w, steps, 0) && LosesAt(fn, w, steps, 0, DeploymentAt("ns", 0), Create)
            && Count(Run(fn, w, steps[..n]).counted, EventAt(0, Create))
               < Rolls(fn, w, steps, n, DeploymentAt("ns", 0), Create)
  {
    var w, steps := MissingSecrets.ExampleWorld(), [Reconcile(ExampleGiven(net), now, stored)] + rest;
    forall j | 0 <= j < |steps| ensures Undisturbed(steps[j], DeploymentAt("ns", 0)) {
      assert j > 0 ==> steps[j] in rest;
    }
    assert steps[..0] == [] && Run(fn, w, steps[..0]) == w;
    ExampleReachesLoop(net, RefreshFails(DeploymentAt("ns", 0)));
    FirstIsWritten(fn, w, ExampleGiven(net));
    UnobservedWriteLoses(fn, w, steps, 0, 0, Create);
    LostForGood(fn, w, steps, 0, n, 0, Create);
  }

  // ----- what a rotation adds to the counter -----

  /** Steps between two reconciles that leave the Deployment alone. */
  ghost predicate Quiet(steps: seq<Step>, k: Key) {
    forall step | step in steps :: !step.Reconcile? && Undisturbed(step, k)
  }

  lemma {:induction false} QuietKeeps(fn: Functions, w: World, steps: seq<Step>, k: Key)
    requires Quiet(steps, k)
    ensures SameOwned(w.objects, Run(fn, w, steps).objects, k)
  {
    if steps == [] {
    } else {
      var n := |steps| - 1;
      assert steps[n] in steps;
      QuietKeeps(fn, w, steps[..n], k);
      OtherStepsKeep(fn, Run(fn, w, steps[..n]), steps[n], k);
    }
  }

  lemma {:induction false} RunSplit(fn: Functions, w: World, a: seq<Step>, b: seq<Step>)
    ensures Run(fn, w, a + b) == Run(fn, Run(fn, w, a), b)
  {
    if b == [] {
      assert a + b == a;
    } else {
      var n := |b| - 1;
      assert (a + b)[..|a + b| - 1] == a + b[..n] && (a + b)[|a + b| - 1] == b[n];
      RunSplit(fn, w, a, b[..n]);
    }
  }

  lemma RunFirst(fn: Functions, w: World, first: Step, steps: seq<Step>)
    ensures Run(fn, w, [first] + steps) == Run(fn, Next(fn, w, first), steps)
  {
    RunSplit(fn, w, [first], steps);
    assert [first][..0] == [];
  }

  /** A reconcile that succeeds got its answers. */
  lemma SuccessObserved(fn: Functions, v: World, given: Inputs, i: nat)
    requires i <= |Bundle.CLOUD_CAPI_ENTITIES| && ReachesLoop(v, given) && !Body(fn, v, given).findings.failed
    ensures var k := DeploymentAt(v.config.namespace, i);
            Observed(given.faults, k) <==> !given.faults.detectRead(k)
  {
    var spec, url := given.cr.spec, JWKSURL(v, given).value;
    var plans := Plans(fn, v.config, v.secrets, spec, url);
    BodyIsLoop(fn, v, given);
    PlanAt(fn, v.config, v.secrets, spec, url, i);
    ComponentsSound(fn, v.config, spec, url, v.secrets);
    LoopFailsIff(Progress(v.objects, v.counted, [], false), plans, ContextFor(fn, given));
    SoundAt(plans, i);
    assert plans[i] in plans;
    assert !PlanFails(plans[i], given.faults);
    assert KeyOf(plans[i].objects.value[|plans[i].objects.value| - 1]) == plans[i].deployment;
  }

  ghost predicate TellsApart(digest: PodTemplate -> string) {
    NeverEmpty(digest) && forall s, t | digest(s) == digest(t) :: s == t
  }

  /** The counter of a Deployment with a recorded digest, over one observed reconcile that keeps its
      images. */
  lemma ConfigRolloutCounted(before: Store, after: Store, k: Key, f: Faults, digest: PodTemplate -> string)
    requires k.kind == DeploymentKind && TellsApart(digest) && k in before && k in after && Observed(f, k)
    requires RecordedDigest(before, k) == digest(before[k].owned.template)
    requires SameImages(before[k].owned.template, after[k].owned.template)
    ensures Rollout(before, after, k, digest) == Some(ConfigChange) && !Hidden(before, k, f, ConfigChange) <==>
            before[k].owned.template != after[k].owned.template
  {
  }

  lemma HashedImages(fn: Functions, c: Bundle.Component, d: Bundle.Component, spec: Spec, s1: map<string, string>,
                     s2: map<string, string>)
    requires Bundle.Render(fn.marshal, c, spec).Ok? && Bundle.Render(fn.marshal, d, spec).Ok?
    requires Bundle.Template(c, spec) == Bundle.Template(d, spec)
    ensures SameImages(HashedTemplate(fn, c, spec, s1), HashedTemplate(fn, d, spec, s2))
  {
  }

  /** A Deployment between two successful reconciles of a run that is quiet in between: what the second
      one finds, and when it replaces it. */
  lemma FoundRecorded(fn: Functions, w: World, first: Step, steps: seq<Step>, second: Step, i: nat)
    requires i <= |Bundle.CLOUD_CAPI_ENTITIES| && TwoReconciles(fn, w, first, steps, second)
    requires Quiet(steps, DeploymentAt(w.config.namespace, i))
    ensures var v, k := Run(fn, w, [first] + steps), DeploymentAt(w.config.namespace, i);
            var before := Next(fn, w, first).objects;
            && k in before && k in v.objects && v.objects[k].owned == before[k].owned
            && RecordedDigest(v.objects, k) == fn.digest(v.objects[k].owned.template)
  {
    var url := JWKSURL(w, first.given).value;
    SameTier(w.config, first.given.cr.spec, url, url, i);
    StoredTemplate(fn, w, first.given, i);
    RunFirst(fn, w, first, steps);
    QuietKeeps(fn, Next(fn, w, first), steps, DeploymentAt(w.config.namespace, i));
  }

  lemma KeepsImages(fn: Functions, w: World, first: Step, steps: seq<Step>, second: Step, i: nat)
    requires Stamping.PlainText(fn.marshal)
    requires i <= |Bundle.CLOUD_CAPI_ENTITIES| && TwoReconciles(fn, w, first, steps, second)
    ensures var v, k := Run(fn, w, [first] + steps), DeploymentAt(w.config.namespace, i);
            var before, after := Next(fn, w, first).objects, Next(fn, v, second).objects;
            k in before && k in after && SameImages(before[k].owned.template, after[k].owned.template)
  {
    var v, spec := Run(fn, w, [first] + steps), first.given.cr.spec;
    var url, other := JWKSURL(w, first.given).value, JWKSURL(v, second.given).value;
    var c, d := Components(w.config, spec, url)[i], Components(w.config, spec, other)[i];
    SameTier(w.config, spec, url, other, i);
    SameTier(w.config, spec, other, url, i);
    StoredTemplate(fn, w, first.given, i);
    StoredTemplate(fn, v, second.given, i);
    Stamping.SelectiveRollout(fn.marshal, c, d, spec, w.secrets, v.secrets);
    HashedImages(fn, c, d, spec, w.secrets, v.secrets);
  }

  /** From rotation to counter: between two successful reconciles of a run that is quiet in between,
      the second adds exactly one configuration rollout of a component if a ConfigMap it mounts got
      other data or a Secret its pods use was rotated, else none, and never any other trigger. */
  lemma RotationCounted(fn: Functions, w: World, first: Step, steps: seq<Step>, second: Step, i: nat, t: Trigger)
    requires Issued(w) && Stamping.PlainText(fn.marshal) && Injective(fn.sha) && TellsApart(fn.digest)
    requires i <= |Bundle.CLOUD_CAPI_ENTITIES| && TwoReconciles(fn, w, first, steps, second)
    requires Quiet(steps, DeploymentAt(w.config.namespace, i))
    requires !second.given.faults.detectRead(DeploymentAt(w.config.namespace, i))
    ensures var v, spec := Run(fn, w, [first] + steps), first.given.cr.spec;
            var c := Components(w.config, spec, JWKSURL(w, first.given).value)[i];
            var d := Components(w.config, spec, JWKSURL(v, second.given).value)[i];
            && Bundle.Render(fn.marshal, c, spec).Ok? && Bundle.Render(fn.marshal, d, spec).Ok?
            && Count(Next(fn, v, second).counted, EventAt(i, t)) ==
               Count(v.counted, EventAt(i, t))
               + Bit(t == ConfigChange && InputsChanged(fn, w, [first] + steps, c, d, spec))
  {
    var v, k := Run(fn, w, [first] + steps), DeploymentAt(w.config.namespace, i);
    RotationReachesPods(fn, w, first, steps, second, i);
    FoundRecorded(fn, w, first, steps, second, i);
    KeepsImages(fn, w, first, steps, second, i);
    SuccessObserved(fn, v, second.given, i);
    ReconcileCounts(fn, v, second.given, second.now, second.stored, i, t);
    ConfigRolloutCounted(v.objects, Next(fn, v, second).objects, k, second.given.faults, fn.digest);
  }
}
