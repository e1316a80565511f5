/** What one reconcile achieves, and what the next one then leaves alone. */
module Convergence {
  import opened Strings
  import opened Sorting
  import opened Status
  import opened Operands
  import opened Rollouts
  import opened ReconcileLoop
  import opened Controller
  import Bundle
  import Discovery
  import Conditions
  import StatusRuns
  import A = ApiComponent
  import S = SentinelComponent

  /** The URL a reconcile works with. */
  ghost function JWKSURL(w: World, given: Inputs): Result<string> {
    Discovery.Resolution(w.cache, given.cr.spec, given.net).0
  }

  /** The plans of a reconcile that reaches the component loop. They do not mention the store. */
  function Plans(fn: Functions, config: Bundle.Config, secrets: map<string, string>, spec: Spec,
                 jwksURL: string): seq<Plan>
    requires Bundle.Resolved(spec.bundle, config).Ok?
  {
    PlansFor(fn, Components(config, spec, jwksURL), spec, secrets)
  }

  ghost predicate ReachesLoop(w: World, given: Inputs) {
    var r := Bundle.Resolved(given.cr.spec.bundle, w.config);
    r.Ok? && Gathered(r.value, w.secrets, given).1 && JWKSURL(w, given).Ok?
  }

  ghost function LoopOf(fn: Functions, w: World, given: Inputs): Progress
    requires ReachesLoop(w, given)
  {
    Loop(Progress(w.objects, w.counted, [], false),
         Plans(fn, w.config, w.secrets, given.cr.spec, JWKSURL(w, given).value), ContextFor(fn, given))
  }

  lemma BodyIsLoop(fn: Functions, w: World, given: Inputs)
    requires ReachesLoop(w, given)
    ensures var o, p := Body(fn, w, given), LoopOf(fn, w, given);
            && o.objects == p.objects && o.counted == p.counted && o.findings.reports == p.reports
            && o.findings.collected == !p.failed && o.findings.failed == p.failed
            && o.cache == Discovery.Resolution(w.cache, given.cr.spec, given.net).1
  {
  }

  lemma DiscoveryAborts(fn: Functions, w: World, given: Inputs, missing: seq<string>)
    requires Bundle.Resolved(given.cr.spec.bundle, w.config).Ok? && JWKSURL(w, given).Failed?
    ensures PastSecrets(fn, w, given, missing) == Aborted(w, given, missing)
  {
  }

  /** A reconcile that fails before the loop changes no object and counts nothing. */
  lemma AbortsUnchanged(fn: Functions, w: World, given: Inputs)
    requires !ReachesLoop(w, given)
    ensures exists missing :: Body(fn, w, given) == Aborted(w, given, missing)
    ensures var o := Body(fn, w, given);
            && o.objects == w.objects && o.counted == w.counted && o.cache == w.cache
            && o.findings.failed && !o.findings.collected && o.findings.reports == []
  {
    var r := Bundle.Resolved(given.cr.spec.bundle, w.config);
    if r.Failed? {
      assert Body(fn, w, given) == Aborted(w, given, []);
    } else if !Gathered(r.value, w.secrets, given).1 {
      assert Body(fn, w, given) == Aborted(w, given, Gathered(r.value, w.secrets, given).0);
    } else {
      var missing := OrderedSet(Gathered(r.value, w.secrets, given).0);
      DiscoveryAborts(fn, w, given, missing);
      assert Body(fn, w, given) == Aborted(w, given, missing);
    }
  }

  // ----- convergence -----

  /** From any store whatever, a reconcile that succeeds leaves the operator-owned part of
      every operand of every component equal to its stamped desired value. That value is
      computed from the spec, the Secrets and the resolved URL, never from the store. */
  lemma Converges(fn: Functions, w: World, given: Inputs)
    requires !Body(fn, w, given).findings.failed
    ensures ReachesLoop(w, given)
    ensures AllConverged(Body(fn, w, given).objects,
                         Plans(fn, w.config, w.secrets, given.cr.spec, JWKSURL(w, given).value),
                         Context(fn.digest, given.cr.name, given.faults))
  {
    if !ReachesLoop(w, given) {
      AbortsUnchanged(fn, w, given);
    }
    BodyIsLoop(fn, w, given);
    ComponentsSound(fn, w.config, given.cr.spec, JWKSURL(w, given).value, w.secrets);
    LoopConverges(Progress(w.objects, w.counted, [], false),
      Plans(fn, w.config, w.secrets, given.cr.spec, JWKSURL(w, given).value), ContextFor(fn, given));
  }

  lemma OwnedAgree(a: Store, b: Store, plans: seq<Plan>, ctx: Context, other: Context, i: nat, k: Key)
    requires ctx.digest == other.digest && ctx.owner == other.owner
    requires AllConverged(a, plans, ctx) && AllConverged(b, plans, other) && i < |plans| && Owns(plans[i], k)
    ensures k in a && k in b && a[k].owned == b[k].owned
  {
  }

  /** Two stores that went through the same inputs agree on every operand, wherever they
      started and whatever was edited in them. */
  lemma StartDoesNotMatter(fn: Functions, w: World, v: World, given: Inputs, others: Inputs, i: nat, k: Key)
    requires !Body(fn, w, given).findings.failed && !Body(fn, v, others).findings.failed
    requires w.config == v.config && w.secrets == v.secrets
    requires given.cr == others.cr && JWKSURL(w, given) == JWKSURL(v, others)
    requires ReachesLoop(w, given)
    requires var plans := Plans(fn, w.config, w.secrets, given.cr.spec, JWKSURL(w, given).value);
             i < |plans| && Owns(plans[i], k)
    ensures k in Body(fn, w, given).objects && k in Body(fn, v, others).objects
    ensures Body(fn, w, given).objects[k].owned == Body(fn, v, others).objects[k].owned
  {
    Converges(fn, w, given);
    Converges(fn, v, others);
    OwnedAgree(Body(fn, w, given).objects, Body(fn, v, others).objects,
      Plans(fn, w.config, w.secrets, given.cr.spec, JWKSURL(w, given).value),
      ContextFor(fn, given), ContextFor(fn, others), i, k);
  }

  lemma NotAnOperand(fn: Functions, config: Bundle.Config, secrets: map<string, string>, spec: Spec, url: string,
                     k: Key)
    requires Bundle.Resolved(spec.bundle, config).Ok?
    requires forall c | c in Components(config, spec, url) :: k !in Bundle.Keys(c)
    ensures forall i | 0 <= i < |Plans(fn, config, secrets, spec, url)| ::
              !Owns(Plans(fn, config, secrets, spec, url)[i], k)
  {
    var cs := Components(config, spec, url);
    forall i | 0 <= i < |cs| ensures !Owns(PlanFor(fn, cs[i], spec, secrets), k) {
      assert cs[i] in cs;
      if Owns(PlanFor(fn, cs[i], spec, secrets), k) {
        PlanOwnsKeys(fn, cs[i], spec, secrets, k);
      }
    }
  }

  ghost predicate IsOperand(w: World, given: Inputs, k: Key) {
    ReachesLoop(w, given) &&
    exists c :: c in Components(w.config, given.cr.spec, JWKSURL(w, given).value) && k in Bundle.Keys(c)
  }

  /** However it ends, a reconcile deletes nothing, writes no foreign field and no Deployment
      status, and leaves every object that is not an operand as it was. */
  lemma TouchesOnlyOperands(fn: Functions, w: World, given: Inputs, k: Key)
    requires k in w.objects
    ensures var after := Body(fn, w, given).objects;
            k in after && after[k].foreign == w.objects[k].foreign && after[k].status == w.objects[k].status
    ensures !IsOperand(w, given, k) ==> Body(fn, w, given).objects[k] == w.objects[k]
  {
    if ReachesLoop(w, given) {
      var start := Progress(w.objects, w.counted, [], false);
      var plans := Plans(fn, w.config, w.secrets, given.cr.spec, JWKSURL(w, given).value);
      BodyIsLoop(fn, w, given);
      LoopKeepsForeign(start, plans, ContextFor(fn, given), k);
      if !IsOperand(w, given, k) {
        NotAnOperand(fn, w.config, w.secrets, given.cr.spec, JWKSURL(w, given).value, k);
        LoopFrame(start, plans, ContextFor(fn, given), k);
      }
    } else {
      AbortsUnchanged(fn, w, given);
    }
  }

  // ----- when it succeeds -----

  ghost predicate SomePlanFails(fn: Functions, w: World, given: Inputs)
    requires ReachesLoop(w, given)
  {
    exists plan :: plan in Plans(fn, w.config, w.secrets, given.cr.spec, JWKSURL(w, given).value)
                   && PlanFails(plan, given.faults)
  }

  /** The body fails exactly when the bundle has no component set, a Secret read fails, the
      JWKS URL cannot be resolved, a component does not render, or a request for one of the
      operands fails. What is stored never makes it fail. */
  lemma FailsIff(fn: Functions, w: World, given: Inputs)
    ensures Body(fn, w, given).findings.failed <==> !ReachesLoop(w, given) || SomePlanFails(fn, w, given)
    ensures Body(fn, w, given).findings.collected <==> !Body(fn, w, given).findings.failed
  {
    if ReachesLoop(w, given) {
      BodyIsLoop(fn, w, given);
      LoopFailsIff(Progress(w.objects, w.counted, [], false),
        Plans(fn, w.config, w.secrets, given.cr.spec, JWKSURL(w, given).value), ContextFor(fn, given));
    } else {
      AbortsUnchanged(fn, w, given);
    }
  }

  /** In a reconcile that reaches the loop the API component always renders: the error for a
      missing JWKS source cannot be met. */
  lemma ApiAlwaysRenders(fn: Functions, w: World, given: Inputs)
    requires ReachesLoop(w, given) && Discovery.NonEmptyURLs(w.cache)
    ensures Plans(fn, w.config, w.secrets, given.cr.spec, JWKSURL(w, given).value)[0].objects.Ok?
    ensures Discovery.NonEmptyURLs(Body(fn, w, given).cache)
  {
    Discovery.SourceResolved(w.cache, given.cr.spec, given.net, Bundle.CLOUD_CAPI_ENTITIES);
    BodyIsLoop(fn, w, given);
    var c := Components(w.config, given.cr.spec, JWKSURL(w, given).value)[0];
    assert c == Bundle.Api(w.config.apiImage, w.config.namespace, Bundle.CLOUD_CAPI_ENTITIES, JWKSURL(w, given).value);
  }

  predicate SetUp(config: Bundle.Config) {
    config.sentinelImage != "" && config.broker.Some? && S.BrokerUsable(config.broker.value)
  }

  lemma SentinelRenders(fn: Functions, config: Bundle.Config, secrets: map<string, string>, spec: Spec, url: string,
                        i: nat)
    requires Bundle.Resolved(spec.bundle, config).Ok? && 0 < i <= |Bundle.CLOUD_CAPI_ENTITIES|
    ensures Plans(fn, config, secrets, spec, url)[i].objects.Ok? <==> SetUp(config)
  {
    var c := Components(config, spec, url)[i];
    var base := A.APIBaseURL(spec, config.namespace);
    var e := Bundle.CLOUD_CAPI_ENTITIES[i - 1];
    assert e in Bundle.CLOUD_CAPI_ENTITIES;
    assert c == Bundle.SentinelFor(config, e, base);
    Bundle.EveryEntityDecides();
    S.RenderFailsIff(fn.marshal.sentinel, fn.marshal.broker, spec, config.sentinelImage, config.namespace,
      e.plural, base, config.broker.value, e.parentKind);
  }

  ghost predicate SomeRequestFails(cs: seq<Bundle.Component>, f: Faults) {
    exists c, k :: c in cs && k in Bundle.Keys(c) && RequestFails(f, k)
  }

  lemma PlanFailsAt(plan: Plan, keys: seq<Key>, f: Faults)
    requires plan.objects.Ok? && |plan.objects.value| == |keys|
    requires forall i | 0 <= i < |keys| :: KeyOf(plan.objects.value[i]) == keys[i]
    ensures PlanFails(plan, f) <==> exists k :: k in keys && RequestFails(f, k)
  {
  }

  lemma PlanFailsIff(fn: Functions, c: Bundle.Component, spec: Spec, secrets: map<string, string>, f: Faults)
    requires PlanFor(fn, c, spec, secrets).objects.Ok?
    ensures PlanFails(PlanFor(fn, c, spec, secrets), f) <==> exists k :: k in Bundle.Keys(c) && RequestFails(f, k)
  {
    var plan := PlanFor(fn, c, spec, secrets);
    Bundle.RenderKeys(fn.marshal, c, spec);
    forall i | 0 <= i < |plan.objects.value| ensures KeyOf(plan.objects.value[i]) == Bundle.Keys(c)[i] {
      StampedKeys(fn, c, spec, secrets, i);
    }
    PlanFailsAt(plan, Bundle.Keys(c), f);
  }

  lemma AllRender(fn: Functions, w: World, given: Inputs, i: nat)
    requires ReachesLoop(w, given) && Discovery.NonEmptyURLs(w.cache) && SetUp(w.config)
    requires i <= |Bundle.CLOUD_CAPI_ENTITIES|
    ensures Plans(fn, w.config, w.secrets, given.cr.spec, JWKSURL(w, given).value)[i].objects.Ok?
  {
    if i == 0 {
      ApiAlwaysRenders(fn, w, given);
    } else {
      SentinelRenders(fn, w.config, w.secrets, given.cr.spec, JWKSURL(w, given).value, i);
    }
  }

  lemma LoopFailsWhenSetUp(fn: Functions, w: World, given: Inputs)
    requires ReachesLoop(w, given) && Discovery.NonEmptyURLs(w.cache) && SetUp(w.config)
    ensures SomePlanFails(fn, w, given) <==>
            SomeRequestFails(Components(w.config, given.cr.spec, JWKSURL(w, given).value), given.faults)
  {
    var spec, url := given.cr.spec, JWKSURL(w, given).value;
    var cs, plans := Components(w.config, spec, url), Plans(fn, w.config, w.secrets, spec, url);
    forall i | 0 <= i < |cs|
      ensures PlanFails(plans[i], given.faults) <==>
              exists k :: k in Bundle.Keys(cs[i]) && RequestFails(given.faults, k)
    {
      AllRender(fn, w, given, i);
      PlanFailsIff(fn, cs[i], spec, w.secrets, given.faults);
    }
    FailuresCorrespond(plans, cs, given.faults);
  }

  lemma LoopFailsUnlessSetUp(fn: Functions, w: World, given: Inputs)
    requires ReachesLoop(w, given) && !SetUp(w.config)
    ensures SomePlanFails(fn, w, given)
  {
    var plans := Plans(fn, w.config, w.secrets, given.cr.spec, JWKSURL(w, given).value);
    SentinelRenders(fn, w.config, w.secrets, given.cr.spec, JWKSURL(w, given).value, 1);
    assert plans[1] in plans && PlanFails(plans[1], given.faults);
  }

  lemma FailuresCorrespond(plans: seq<Plan>, cs: seq<Bundle.Component>, f: Faults)
    requires |plans| == |cs|
    requires forall i | 0 <= i < |cs| ::
               PlanFails(plans[i], f) <==> exists k :: k in Bundle.Keys(cs[i]) && RequestFails(f, k)
    ensures (exists plan :: plan in plans && PlanFails(plan, f)) <==> SomeRequestFails(cs, f)
  {
  }

  /** The causes of a failing reconcile, all of them and each checkable beforehand: a bundle
      without a component set, a Secret read that fails, a JWKS URL that cannot be resolved, a
      missing Sentinel image or unusable broker, a request for an operand that fails. Neither
      the stored objects nor missing Secrets are among them. */
  lemma FailsExactlyWhen(fn: Functions, w: World, given: Inputs)
    requires Discovery.NonEmptyURLs(w.cache)
    ensures Body(fn, w, given).findings.failed <==>
            var r := Bundle.Resolved(given.cr.spec.bundle, w.config);
            || r.Failed?
            || SomeReadFails(r.value, given)
            || JWKSURL(w, given).Failed?
            || !SetUp(w.config)
            || SomeRequestFails(Components(w.config, given.cr.spec, JWKSURL(w, given).value), given.faults)
  {
    FailsIff(fn, w, given);
    var r := Bundle.Resolved(given.cr.spec.bundle, w.config);
    if r.Ok? {
      GatheredIff(r.value, w.secrets, given);
    }
    if ReachesLoop(w, given) {
      if SetUp(w.config) {
        LoopFailsWhenSetUp(fn, w, given);
      } else {
        LoopFailsUnlessSetUp(fn, w, given);
      }
    }
  }

  /** With a usable setup, no failing request and a JWKS URL, every reconcile of the cloud-capi
      bundle succeeds, whatever is stored and whichever Secrets are missing. */
  lemma SucceedsWithoutFaults(fn: Functions, w: World, given: Inputs)
    requires given.cr.spec.bundle == CloudCAPI && SetUp(w.config) && Discovery.NonEmptyURLs(w.cache)
    requires forall name, secret :: !given.secretFails(name, secret)
    requires forall k :: !RequestFails(given.faults, k)
    requires JWKSURL(w, given).Ok?
    ensures !Body(fn, w, given).findings.failed
  {
    FailsExactlyWhen(fn, w, given);
  }

  // ----- reports -----

  ghost predicate IsReport(r: ComponentConditions, plan: Plan) {
    exists objects: Store :: r == ReportFor(objects, plan)
  }

  ghost predicate OneReportEach(p: Progress, plans: seq<Plan>) {
    && |p.reports| <= |plans| && (!p.failed ==> |p.reports| == |plans|)
    && forall i | 0 <= i < |p.reports| :: IsReport(p.reports[i], plans[i])
  }

  /** A turn adds the component's report or fails. */
  ghost predicate ReportsOrFails(p: Progress, q: Progress, plan: Plan) {
    if q.failed then q.reports == p.reports
    else !p.failed && exists r :: IsReport(r, plan) && q.reports == p.reports + [r]
  }

  lemma TurnReport(p: Progress, plan: Plan, ctx: Context)
    ensures ReportsOrFails(p, Turn(p, plan, ctx), plan)
  {
  }

  lemma OneReportMore(p: Progress, q: Progress, plans: seq<Plan>)
    requires plans != [] && OneReportEach(p, plans[..|plans| - 1]) && ReportsOrFails(p, q, plans[|plans| - 1])
    ensures OneReportEach(q, plans)
  {
  }

  lemma {:induction false} ReportNames(p: Progress, plans: seq<Plan>, ctx: Context)
    requires p.reports == []
    ensures OneReportEach(Loop(p, plans, ctx), plans)
  {
    if plans == [] {
    } else {
      var n := |plans| - 1;
      ReportNames(p, plans[..n], ctx);
      TurnReport(Loop(p, plans[..n], ctx), plans[n], ctx);
      OneReportMore(Loop(p, plans[..n], ctx), Loop(p, plans, ctx), plans);
    }
  }

  lemma ReportGood(r: ComponentConditions, plan: Plan)
    requires IsReport(r, plan)
    ensures r.name == plan.name && Conditions.UniqueKinds(r.conditions) && StatusRuns.RolledOutIsAvailable(r.conditions)
    ensures forall c | c in r.conditions :: c.lastTransitionTime == 0
  {
  }

  lemma {:induction false} NamesDiffer(plans: seq<Plan>, i: nat, j: nat)
    requires SoundPlans(plans) && i < j < |plans|
    ensures plans[i].name != plans[j].name
  {
    var n := |plans| - 1;
    if j == n {
    } else {
      NamesDiffer(plans[..n], i, j);
    }
  }

  ghost predicate GoodReports(reports: seq<ComponentConditions>) {
    StatusRuns.WellFormed(reports) && forall r | r in reports :: StatusRuns.RolledOutIsAvailable(r.conditions)
  }

  lemma LoopReportsGood(p: Progress, plans: seq<Plan>, ctx: Context)
    requires p.reports == [] && SoundPlans(plans)
    ensures GoodReports(Loop(p, plans, ctx).reports)
  {
    var reports := Loop(p, plans, ctx).reports;
    ReportNames(p, plans, ctx);
    forall i | 0 <= i < |reports|
      ensures reports[i].name == plans[i].name
      ensures Conditions.UniqueKinds(reports[i].conditions) && StatusRuns.RolledOutIsAvailable(reports[i].conditions)
      ensures forall c | c in reports[i].conditions :: c.lastTransitionTime == 0
    {
      ReportGood(reports[i], plans[i]);
    }
    forall i, j | 0 <= i < j < |reports| ensures reports[i].name != reports[j].name {
      NamesDiffer(plans, i, j);
    }
    GoodFrom(reports);
  }

  lemma GoodFrom(reports: seq<ComponentConditions>)
    requires forall i, j | 0 <= i < j < |reports| :: reports[i].name != reports[j].name
    requires forall i | 0 <= i < |reports| ::
               && Conditions.UniqueKinds(reports[i].conditions)
               && StatusRuns.RolledOutIsAvailable(reports[i].conditions)
               && forall c | c in reports[i].conditions :: c.lastTransitionTime == 0
    ensures GoodReports(reports)
  {
  }

  /** Every reconcile, aborted or not, reports distinct components with distinct condition
      types, and never a component that is rolled out but not available. */
  lemma BodyReportsGood(fn: Functions, w: World, given: Inputs)
    ensures GoodReports(Body(fn, w, given).findings.reports)
  {
    if ReachesLoop(w, given) {
      BodyIsLoop(fn, w, given);
      ComponentsSound(fn, w.config, given.cr.spec, JWKSURL(w, given).value, w.secrets);
      LoopReportsGood(Progress(w.objects, w.counted, [], false),
        Plans(fn, w.config, w.secrets, given.cr.spec, JWKSURL(w, given).value), ContextFor(fn, given));
    } else {
      AbortsUnchanged(fn, w, given);
    }
  }

  // ----- the second reconcile -----

  /** The same inputs again: nothing but the outcome of single requests may differ. */
  ghost predicate SameInputs(w: World, given: Inputs, v: World, again: Inputs) {
    && given.cr == again.cr && w.config == v.config && w.secrets == v.secrets
    && ReachesLoop(v, again) && JWKSURL(w, given) == JWKSURL(v, again)
  }

  /** After a reconcile that succeeded, another on the same inputs writes no object and counts
      no rollout, even when it is cut short. */
  lemma SecondWritesNothing(fn: Functions, w: World, given: Inputs, v: World, again: Inputs)
    requires !Body(fn, w, given).findings.failed
    requires v.objects == Body(fn, w, given).objects && SameInputs(w, given, v, again)
    ensures Body(fn, v, again).objects == v.objects && Body(fn, v, again).counted == v.counted
  {
    Converges(fn, w, given);
    BodyIsLoop(fn, v, again);
    LoopIdempotent(Progress(v.objects, v.counted, [], false),
      Plans(fn, w.config, w.secrets, given.cr.spec, JWKSURL(w, given).value),
      ContextFor(fn, again), ContextFor(fn, given));
  }

  lemma SecondReportsAlike(fn: Functions, w: World, given: Inputs, v: World, again: Inputs)
    requires !Body(fn, w, given).findings.failed
    requires v.objects == Body(fn, w, given).objects && SameInputs(w, given, v, again)
    requires !Body(fn, v, again).findings.failed
    ensures Body(fn, v, again).findings.reports == Body(fn, w, given).findings.reports
  {
    Converges(fn, w, given);
    BodyIsLoop(fn, w, given);
    BodyIsLoop(fn, v, again);
    var plans := Plans(fn, w.config, w.secrets, given.cr.spec, JWKSURL(w, given).value);
    ComponentsSound(fn, w.config, given.cr.spec, JWKSURL(w, given).value, w.secrets);
    LoopReports(Progress(w.objects, w.counted, [], false), plans, ContextFor(fn, given));
    LoopIdempotent(Progress(v.objects, v.counted, [], false), plans, ContextFor(fn, again), ContextFor(fn, given));
  }

  lemma {:induction false} GatheredAlike(cs: seq<Bundle.Component>, secrets: map<string, string>, given: Inputs,
                                         again: Inputs)
    requires given.cr == again.cr && Gathered(cs, secrets, given).1 && Gathered(cs, secrets, again).1
    ensures Gathered(cs, secrets, given).0 == Gathered(cs, secrets, again).0
  {
    if cs == [] {
    } else {
      GatheredAlike(cs[..|cs| - 1], secrets, given, again);
    }
  }

  lemma SecondFindsAlike(fn: Functions, w: World, given: Inputs, v: World, again: Inputs)
    requires !Body(fn, w, given).findings.failed
    requires v.objects == Body(fn, w, given).objects && SameInputs(w, given, v, again)
    requires !Body(fn, v, again).findings.failed
    ensures Body(fn, v, again).findings == Body(fn, w, given).findings
  {
    Converges(fn, w, given);
    SecondReportsAlike(fn, w, given, v, again);
    GatheredAlike(Bundle.Resolved(given.cr.spec.bundle, w.config).value, w.secrets, given, again);
  }

  lemma {:induction false} SameUpToOrderReflexive(a: seq<ComponentConditions>)
    ensures StatusRuns.SameUpToOrder(a, a)
  {
  }

  /** A second successful reconcile on the same inputs changes nothing at all: no object, no
      counter, no status, at whatever later time and whether or not a write would succeed. */
  lemma SecondReconcileIsSilent(fn: Functions, w: World, given: Inputs, now: Conditions.Time,
                              again: Inputs, later: Conditions.Time, stored: bool)
    requires StatusRuns.Lockstep(w.status) && StatusRuns.UpTo(w.status, given.cr.generation)
    requires !Fails(fn, w, given, now, true)
    requires var v := Reconciled(fn, w, given, now, true);
             SameInputs(w, given, v, again) && !Body(fn, v, again).findings.failed
    ensures var v := Reconciled(fn, w, given, now, true);
            && Reconciled(fn, v, again, later, stored) == v.(cache := Body(fn, v, again).cache)
            && !Fails(fn, v, again, later, stored)
  {
    var v := Reconciled(fn, w, given, now, true);
    var f := Body(fn, w, given).findings;
    SecondWritesNothing(fn, w, given, v, again);
    SecondFindsAlike(fn, w, given, v, again);
    BodyReportsGood(fn, w, given);
    SameUpToOrderReflexive(f.reports);
    StatusRuns.RepeatChangesNothing(w.status, f, f, now, later);
    StatusRuns.SortedIsComparable(w.status, f);
    assert v.status == Aggregate(w.status, f, now);
  }
}
