/** What the cluster holds after a reconcile, told from the rendered operands alone: exactly these,
    hashed and owned by the configuration. */
module StoredOperands {
  import opened Strings
  import opened Operands
  import opened Rollouts
  import opened ReconcileLoop
  import opened Controller
  import opened Convergence
  import Bundle
  import Stamping

  // ----- a successful reconcile -----

  function OwnedBy(o: Operand, owner: string): Operand {
    o.(owner := owner)
  }

  /** What becomes of a rendered operand: the owner is set, and a Deployment carries the rollout hash
      in its pod template and the digest of that template on itself; nothing else differs. */
  predicate StoredAs(s: Operand, o: Operand, owner: string, hash: string, digest: PodTemplate -> string) {
    if !o.Deployment? then s == OwnedBy(o, owner)
    else
      && s.Deployment? && s.namespace == o.namespace && s.name == o.name && s.replicas == o.replicas
      && s.owner == owner
      && s.template.initContainers == o.template.initContainers && s.template.containers == o.template.containers
      && s.template.volumes == o.template.volumes
      && s.template.annotations == map["hyperfleet.redhat.com/config-hash" := hash]
      && s.annotations == map["hyperfleet.redhat.com/template-hash" := digest(s.template)]
  }

  lemma OneStored(o: Operand, deployment: string, hash: string, digest: PodTemplate -> string, owner: string)
    requires o.Deployment? ==> o.name == deployment && o.annotations == map[] && o.template.annotations == map[]
    ensures var s := OwnedBy(WithTemplateHash(Stamping.StampOne(o, deployment, hash), digest), owner);
            KeyOf(s) == KeyOf(o) && StoredAs(s, o, owner, hash, digest)
  {
  }

  lemma DesiredAt(objs: seq<Operand>, deployment: string, hash: string, ctx: Context, m: nat)
    requires m < |objs|
    ensures Desired(Stamping.Stamped(objs, deployment, hash), ctx)[m] ==
            OwnedBy(WithTemplateHash(Stamping.StampOne(objs[m], deployment, hash), ctx.digest), ctx.owner)
  {
  }

  lemma PlanObjects(fn: Functions, c: Bundle.Component, spec: Spec, secrets: map<string, string>)
    requires Bundle.Render(fn.marshal, c, spec).Ok?
    ensures PlanFor(fn, c, spec, secrets).objects ==
            Ok(Stamping.Stamped(Bundle.Render(fn.marshal, c, spec).value, Bundle.Rollout(c).deployment,
                 fn.sha(Stamping.Input(fn.marshal, c, spec, secrets))))
  {
  }

  lemma PlanStores(fn: Functions, c: Bundle.Component, spec: Spec, secrets: map<string, string>, name: string,
                   faults: Faults, m: nat)
    requires Bundle.Render(fn.marshal, c, spec).Ok? && m < |Bundle.Render(fn.marshal, c, spec).value|
    ensures var objs, plan := Bundle.Render(fn.marshal, c, spec).value, PlanFor(fn, c, spec, secrets);
            && plan.objects.Ok? && |plan.objects.value| == |objs|
            && var s := Desired(plan.objects.value, Context(fn.digest, name, faults))[m];
               KeyOf(s) == KeyOf(objs[m])
               && StoredAs(s, objs[m], name, fn.sha(Stamping.Input(fn.marshal, c, spec, secrets)), fn.digest)
  {
    var objs := Bundle.Render(fn.marshal, c, spec).value;
    var hash := fn.sha(Stamping.Input(fn.marshal, c, spec, secrets));
    Bundle.RenderDeployment(fn.marshal, c, spec);
    OneStored(objs[m], Bundle.Rollout(c).deployment, hash, fn.digest, name);
    DesiredAt(objs, Bundle.Rollout(c).deployment, hash, Context(fn.digest, name, faults), m);
    PlanObjects(fn, c, spec, secrets);
  }

  /** The store holds operand `o` that way. */
  predicate Holding(objects: Store, o: Operand, owner: string, hash: string, digest: PodTemplate -> string) {
    KeyOf(o) in objects && StoredAs(objects[KeyOf(o)].owned, o, owner, hash, digest)
  }

  lemma ConvergedAt(fn: Functions, plans: seq<Plan>, i: nat, objects: Store, name: string, faults: Faults,
                    c: Bundle.Component, spec: Spec, secrets: map<string, string>, m: nat)
    requires AllConverged(objects, plans, Context(fn.digest, name, faults)) && i < |plans|
    requires plans[i] == PlanFor(fn, c, spec, secrets)
    ensures Bundle.Render(fn.marshal, c, spec).Ok?
    ensures m < |Bundle.Render(fn.marshal, c, spec).value| ==>
              Holding(objects, Bundle.Render(fn.marshal, c, spec).value[m], name,
                      fn.sha(Stamping.Input(fn.marshal, c, spec, secrets)), fn.digest)
  {
    if m < |Bundle.Render(fn.marshal, c, spec).value| {
      PlanStores(fn, c, spec, secrets, name, faults, m);
      var ds := Desired(plans[i].objects.value, Context(fn.digest, name, faults));
      assert ds[m] in ds;
    }
  }

  /** Among them the Deployment, wanting one replica. */
  lemma DeploymentConverged(fn: Functions, plans: seq<Plan>, i: nat, objects: Store, name: string, faults: Faults,
                            c: Bundle.Component, spec: Spec, secrets: map<string, string>)
    requires AllConverged(objects, plans, Context(fn.digest, name, faults)) && i < |plans|
    requires plans[i] == PlanFor(fn, c, spec, secrets)
    ensures var k := Bundle.DeploymentKey(c);
            k in objects && objects[k].owned.Deployment? && objects[k].owned.replicas == Some(1)
  {
    ConvergedAt(fn, plans, i, objects, name, faults, c, spec, secrets, 0);
    Bundle.RenderDeployment(fn.marshal, c, spec);
    var n := |Bundle.Render(fn.marshal, c, spec).value| - 1;
    ConvergedAt(fn, plans, i, objects, name, faults, c, spec, secrets, n);
  }

  /** The components a reconcile works on. */
  ghost function Wired(w: World, given: Inputs): seq<Bundle.Component>
    requires ReachesLoop(w, given)
  {
    Components(w.config, given.cr.spec, JWKSURL(w, given).value)
  }

  /** After a successful reconcile, whatever was stored before, the store holds operand `m` of
      component `i` exactly as rendered, with the configuration as its owner. */
  lemma AsRendered(fn: Functions, w: World, given: Inputs, i: nat, m: nat)
    requires !Body(fn, w, given).findings.failed && ReachesLoop(w, given) && i < |Wired(w, given)|
    ensures var c := Wired(w, given)[i];
            && Bundle.Render(fn.marshal, c, given.cr.spec).Ok?
            && var objs := Bundle.Render(fn.marshal, c, given.cr.spec).value;
               m < |objs| ==>
                 Holding(Body(fn, w, given).objects, objs[m], given.cr.name,
                         fn.sha(Stamping.Input(fn.marshal, c, given.cr.spec, w.secrets)), fn.digest)
  {
    Converges(fn, w, given);
    ConvergedAt(fn, Plans(fn, w.config, w.secrets, given.cr.spec, JWKSURL(w, given).value), i,
      Body(fn, w, given).objects, given.cr.name, given.faults, Wired(w, given)[i], given.cr.spec, w.secrets, m);
  }

  // ----- ownership -----

  /** Every operand of the component exists and has this owner. */
  ghost predicate ComponentOwned(c: Bundle.Component, objects: Store, owner: string) {
    forall k | k in Bundle.Keys(c) :: k in objects && objects[k].owned.owner == owner
  }

  lemma HoldingOwned(fn: Functions, c: Bundle.Component, spec: Spec, objects: Store, owner: string, hash: string,
                     m: nat)
    requires Bundle.Render(fn.marshal, c, spec).Ok? && m < |Bundle.Keys(c)|
    requires m < |Bundle.Render(fn.marshal, c, spec).value| ==>
               Holding(objects, Bundle.Render(fn.marshal, c, spec).value[m], owner, hash, fn.digest)
    ensures Bundle.Keys(c)[m] in objects && objects[Bundle.Keys(c)[m]].owned.owner == owner
  {
    Bundle.RenderKeys(fn.marshal, c, spec);
  }

  lemma OwnedAt(fn: Functions, w: World, given: Inputs, i: nat, k: Key)
    requires !Body(fn, w, given).findings.failed && ReachesLoop(w, given)
    requires i < |Wired(w, given)| && k in Bundle.Keys(Wired(w, given)[i])
    ensures k in Body(fn, w, given).objects && Body(fn, w, given).objects[k].owned.owner == given.cr.name
  {
    var c := Wired(w, given)[i];
    var m :| 0 <= m < |Bundle.Keys(c)| && Bundle.Keys(c)[m] == k;
    AsRendered(fn, w, given, i, m);
    HoldingOwned(fn, c, given.cr.spec, Body(fn, w, given).objects, given.cr.name,
      fn.sha(Stamping.Input(fn.marshal, c, given.cr.spec, w.secrets)), m);
  }

  lemma ComponentIsOwned(fn: Functions, w: World, given: Inputs, i: nat)
    requires !Body(fn, w, given).findings.failed && ReachesLoop(w, given) && i < |Wired(w, given)|
    ensures ComponentOwned(Wired(w, given)[i], Body(fn, w, given).objects, given.cr.name)
  {
    var c, after := Wired(w, given)[i], Body(fn, w, given).objects;
    forall k | k in Bundle.Keys(c) ensures k in after && after[k].owned.owner == given.cr.name {
      OwnedAt(fn, w, given, i, k);
    }
  }

  lemma WiredIsReached(fn: Functions, w: World, given: Inputs)
    requires !Body(fn, w, given).findings.failed
    ensures ReachesLoop(w, given)
  {
    FailsIff(fn, w, given);
  }

  /** Every operand of every component the reconcile works on is there, owned by the configuration. */
  ghost predicate BundleOwned(w: World, given: Inputs, objects: Store) {
    ReachesLoop(w, given)
    && forall i | 0 <= i < |Wired(w, given)| :: ComponentOwned(Wired(w, given)[i], objects, given.cr.name)
  }

  /** After a successful reconcile all operands are there and belong to the configuration, so they are
      collected with it and their drift wakes the controller. */
  lemma OwnedByConfiguration(fn: Functions, w: World, given: Inputs)
    requires !Body(fn, w, given).findings.failed && ReachesLoop(w, given)
    ensures BundleOwned(w, given, Body(fn, w, given).objects)
  {
    var cs, after := Wired(w, given), Body(fn, w, given).objects;
    forall i | 0 <= i < |cs| ensures ComponentOwned(cs[i], after, given.cr.name) {
      ComponentIsOwned(fn, w, given, i);
    }
  }

  /** Nothing is deleted, and what is created or changed belongs to `owner`. */
  predicate OwnsChanges(before: Store, after: Store, k: Key, owner: string) {
    && (k in before ==> k in after)
    && (k in after && (k in before ==> after[k].owned != before[k].owned) ==> after[k].owned.owner == owner)
  }

  lemma OwnsChangesTwice(a: Store, b: Store, c: Store, k: Key, owner: string)
    requires OwnsChanges(a, b, k, owner) && OwnsChanges(b, c, k, owner)
    ensures OwnsChanges(a, c, k, owner)
  {
  }

  lemma {:induction false} AppliedOwnsChanges(objects: Store, objs: seq<Operand>, f: Faults, k: Key, owner: string)
    requires forall o | o in objs :: o.owner == owner
    ensures OwnsChanges(objects, Applied(objects, objs, f).0, k, owner)
    decreases objs
  {
    if objs == [] {
    } else {
      var next := Apply(objects, objs[0]);
      assert OwnsChanges(objects, next, k, owner);
      AppliedOwnsChanges(next, objs[1..], f, k, owner);
      OwnsChangesTwice(objects, next, Applied(next, objs[1..], f).0, k, owner);
    }
  }

  lemma TurnOwnsChanges(p: Progress, plan: Plan, ctx: Context, k: Key)
    ensures OwnsChanges(p.objects, Turn(p, plan, ctx).objects, k, ctx.owner)
  {
    if !p.failed && plan.objects.Ok? {
      AppliedOwnsChanges(p.objects, Desired(plan.objects.value, ctx), ctx.faults, k, ctx.owner);
    }
  }

  lemma {:induction false} LoopOwnsChanges(p: Progress, plans: seq<Plan>, ctx: Context, k: Key)
    ensures OwnsChanges(p.objects, Loop(p, plans, ctx).objects, k, ctx.owner)
  {
    if plans == [] {
    } else {
      var n := |plans| - 1;
      var q := Loop(p, plans[..n], ctx);
      LoopOwnsChanges(p, plans[..n], ctx, k);
      TurnOwnsChanges(q, plans[n], ctx, k);
      OwnsChangesTwice(p.objects, q.objects, Loop(p, plans, ctx).objects, k, ctx.owner);
    }
  }

  /** However a reconcile ends, every object whose owned part it created or changed belongs to the
      configuration. */
  lemma ChangesAreOwned(fn: Functions, w: World, given: Inputs, k: Key)
    ensures OwnsChanges(w.objects, Body(fn, w, given).objects, k, given.cr.name)
  {
    if ReachesLoop(w, given) {
      BodyIsLoop(fn, w, given);
      LoopOwnsChanges(Progress(w.objects, w.counted, [], false),
        Plans(fn, w.config, w.secrets, given.cr.spec, JWKSURL(w, given).value), ContextFor(fn, given), k);
    } else {
      AbortsUnchanged(fn, w, given);
    }
  }

  /** What a reconcile leaves of ownership: everything it changed belongs to the configuration, and
      when it did not fail so does every operand of the bundle. */
  ghost predicate LeavesOwned(w: World, given: Inputs, objects: Store, failed: bool) {
    && (forall k :: OwnsChanges(w.objects, objects, k, given.cr.name))
    && (!failed ==> BundleOwned(w, given, objects))
  }

  // ----- generations -----

  /** A Deployment's generation rises with its spec, and its status is the Deployment controller's. */
  predicate Raises(before: Store, after: Store, k: Key) {
    && (k in before ==>
          && k in after && after[k].status == before[k].status && after[k].generation >= before[k].generation
          && (!SameSpec(before[k].owned, after[k].owned) ==> after[k].generation > before[k].generation))
    && (k !in before && k in after ==> after[k].status == NO_STATUS && after[k].generation >= 1)
  }

  lemma RaisesTwice(a: Store, b: Store, c: Store, k: Key)
    requires k.kind == DeploymentKind && Raises(a, b, k) && Raises(b, c, k)
    ensures Raises(a, c, k)
  {
  }

  lemma ApplyRaises(objects: Store, d: Operand, k: Key)
    ensures Raises(objects, Apply(objects, d), k)
  {
  }

  lemma {:induction false} AppliedRaises(objects: Store, objs: seq<Operand>, f: Faults, k: Key)
    requires k.kind == DeploymentKind
    ensures Raises(objects, Applied(objects, objs, f).0, k)
    decreases objs
  {
    if objs == [] {
    } else {
      var next := Apply(objects, objs[0]);
      ApplyRaises(objects, objs[0], k);
      AppliedRaises(next, objs[1..], f, k);
      RaisesTwice(objects, next, Applied(next, objs[1..], f).0, k);
    }
  }

  lemma {:induction false} LoopRaises(p: Progress, plans: seq<Plan>, ctx: Context, k: Key)
    requires k.kind == DeploymentKind
    ensures Raises(p.objects, Loop(p, plans, ctx).objects, k)
  {
    if plans == [] {
    } else {
      var n := |plans| - 1;
      var q := Loop(p, plans[..n], ctx);
      LoopRaises(p, plans[..n], ctx, k);
      if !q.failed && plans[n].objects.Ok? {
        AppliedRaises(q.objects, Desired(plans[n].objects.value, ctx), ctx.faults, k);
      }
      RaisesTwice(p.objects, q.objects, Loop(p, plans, ctx).objects, k);
    }
  }

  /** However a reconcile ends, a Deployment whose spec it changed has a higher generation than before,
      and its status is as it was. */
  lemma BodyRaises(fn: Functions, w: World, given: Inputs, k: Key)
    requires k.kind == DeploymentKind
    ensures Raises(w.objects, Body(fn, w, given).objects, k)
  {
    if ReachesLoop(w, given) {
      BodyIsLoop(fn, w, given);
      LoopRaises(Progress(w.objects, w.counted, [], false),
        Plans(fn, w.config, w.secrets, given.cr.spec, JWKSURL(w, given).value), ContextFor(fn, given), k);
    } else {
      AbortsUnchanged(fn, w, given);
    }
  }
}
