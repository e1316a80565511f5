/** The per-component loop of a reconcile: detect, apply, count and report, component by
    component, until one fails. */
module ReconcileLoop {
  import opened Strings
  import opened Operands
  import opened Rollouts
  import opened Status
  import Health

  /** One component's turn: `objects` is what it renders, with the rollout hash stamped. */
  datatype Plan = Plan(name: string, subject: string, deployment: Key, objects: Result<seq<Operand>>)

  datatype Context = Context(digest: PodTemplate -> string, owner: string, faults: Faults)

  datatype Progress = Progress(objects: Store, counted: seq<Event>, reports: seq<ComponentConditions>, failed: bool)

  /** What is sent to the server: the rendered operands, stamped and owned. */
  function Desired(objs: seq<Operand>, ctx: Context): (r: seq<Operand>)
    ensures |r| == |objs| && forall i | 0 <= i < |objs| :: KeyOf(r[i]) == KeyOf(objs[i])
  {
    WithOwner(WithTemplateHashes(objs, ctx.digest), ctx.owner)
  }

  function ReportFor(objects: Store, plan: Plan): ComponentConditions {
    ComponentConditions(plan.name,
      Health.Report(plan.subject, if plan.deployment in objects then Some(objects[plan.deployment]) else None))
  }

  function ReportsFor(objects: Store, plans: seq<Plan>): (r: seq<ComponentConditions>)
    ensures |r| == |plans| && forall i | 0 <= i < |plans| :: r[i] == ReportFor(objects, plans[i])
  {
    seq(|plans|, i requires 0 <= i < |plans| => ReportFor(objects, plans[i]))
  }

  function Turn(p: Progress, plan: Plan, ctx: Context): Progress {
    if p.failed then p
    else match plan.objects
      case Failed => p.(failed := true)
      case Ok(objs) =>
        var events := Detected(plan.name, objs, ctx.digest, p.objects, ctx.faults);
        var (objects, ok) := Applied(p.objects, Desired(objs, ctx), ctx.faults);
        if !ok then p.(objects := objects, failed := true)
        else Progress(objects, p.counted + events, p.reports + [ReportFor(objects, plan)], false)
  }

  function Loop(p: Progress, plans: seq<Plan>, ctx: Context): Progress {
    if |plans| == 0 then p
    else Turn(Loop(p, plans[..|plans| - 1], ctx), plans[|plans| - 1], ctx)
  }

  // ----- what the rendered components guarantee -----

  predicate Owns(plan: Plan, k: Key) {
    plan.objects.Ok? && exists o :: o in plan.objects.value && KeyOf(o) == k
  }

  ghost predicate SoundPlan(plan: Plan) {
    && plan.deployment.kind == DeploymentKind
    && (plan.objects.Ok? ==>
          var objs := plan.objects.value;
          var n := |objs| - 1;
          && DistinctOperands(objs) && n >= 0 && objs[n].Deployment? && KeyOf(objs[n]) == plan.deployment
          && forall i | 0 <= i < n :: !objs[i].Deployment?)
  }

  ghost predicate Separate(a: Plan, b: Plan) {
    && a.name != b.name
    && (forall k | Owns(a, k) :: !Owns(b, k))
    && !Owns(a, b.deployment) && !Owns(b, a.deployment)
  }

  ghost predicate SoundPlans(plans: seq<Plan>) {
    |plans| == 0 ||
      var n := |plans| - 1;
      SoundPlans(plans[..n]) && SoundPlan(plans[n]) && forall i | 0 <= i < n :: Separate(plans[i], plans[n])
  }

  lemma {:induction false} SoundPlansFrom(plans: seq<Plan>)
    requires forall i | 0 <= i < |plans| :: SoundPlan(plans[i])
    requires forall i, j | 0 <= i < j < |plans| :: Separate(plans[i], plans[j])
    ensures SoundPlans(plans)
  {
    if plans == [] {
    } else {
      SoundPlansFrom(plans[..|plans| - 1]);
    }
  }

  lemma DesiredOwns(plan: Plan, ctx: Context, k: Key)
    requires plan.objects.Ok?
    ensures Owns(plan, k) <==> exists o :: o in Desired(plan.objects.value, ctx) && KeyOf(o) == k
  {
  }

  // ----- frame -----

  lemma TurnFrame(p: Progress, plan: Plan, ctx: Context, k: Key)
    requires !Owns(plan, k)
    ensures k in Turn(p, plan, ctx).objects <==> k in p.objects
    ensures k in p.objects ==> Turn(p, plan, ctx).objects[k] == p.objects[k]
  {
    if !p.failed && plan.objects.Ok? {
      DesiredOwns(plan, ctx, k);
      AppliedFrame(p.objects, Desired(plan.objects.value, ctx), ctx.faults, k);
    }
  }

  /** Objects no component renders are untouched, however the loop ends. */
  lemma {:induction false} LoopFrame(p: Progress, plans: seq<Plan>, ctx: Context, k: Key)
    requires forall i | 0 <= i < |plans| :: !Owns(plans[i], k)
    ensures k in Loop(p, plans, ctx).objects <==> k in p.objects
    ensures k in p.objects ==> Loop(p, plans, ctx).objects[k] == p.objects[k]
  {
    if plans == [] {
    } else {
      var n := |plans| - 1;
      LoopFrame(p, plans[..n], ctx, k);
      TurnFrame(Loop(p, plans[..n], ctx), plans[n], ctx, k);
    }
  }

  /** No object is deleted, no foreign field and no Deployment status is written. */
  lemma {:induction false} LoopKeepsForeign(p: Progress, plans: seq<Plan>, ctx: Context, k: Key)
    requires k in p.objects
    ensures var after := Loop(p, plans, ctx).objects;
            k in after && after[k].foreign == p.objects[k].foreign && after[k].status == p.objects[k].status
  {
    if plans == [] {
    } else {
      var n := |plans| - 1;
      LoopKeepsForeign(p, plans[..n], ctx, k);
      var q := Loop(p, plans[..n], ctx);
      if !q.failed && plans[n].objects.Ok? {
        AppliedKeepsForeign(q.objects, Desired(plans[n].objects.value, ctx), ctx.faults, k);
      }
    }
  }

  // ----- convergence -----

  lemma TurnConverges(p: Progress, plan: Plan, ctx: Context)
    requires SoundPlan(plan) && !Turn(p, plan, ctx).failed
    ensures plan.objects.Ok? && Converged(Turn(p, plan, ctx).objects, Desired(plan.objects.value, ctx))
  {
    AppliedConverges(p.objects, Desired(plan.objects.value, ctx), ctx.faults);
  }

  lemma KeepsConverged(p: Progress, plan: Plan, ctx: Context, other: Plan)
    requires other.objects.Ok? && Converged(p.objects, Desired(other.objects.value, ctx))
    requires forall k | Owns(other, k) :: !Owns(plan, k)
    ensures Converged(Turn(p, plan, ctx).objects, Desired(other.objects.value, ctx))
  {
    var ds := Desired(other.objects.value, ctx);
    forall o | o in ds
      ensures KeyOf(o) in Turn(p, plan, ctx).objects && Turn(p, plan, ctx).objects[KeyOf(o)].owned == o
    {
      DesiredOwns(other, ctx, KeyOf(o));
      TurnFrame(p, plan, ctx, KeyOf(o));
    }
  }

  ghost predicate AllConverged(objects: Store, plans: seq<Plan>, ctx: Context) {
    forall i | 0 <= i < |plans| :: plans[i].objects.Ok? && Converged(objects, Desired(plans[i].objects.value, ctx))
  }

  lemma ConvergesNext(q: Progress, plans: seq<Plan>, ctx: Context)
    requires plans != [] && SoundPlan(plans[|plans| - 1])
    requires forall i | 0 <= i < |plans| - 1 :: Separate(plans[i], plans[|plans| - 1])
    requires AllConverged(q.objects, plans[..|plans| - 1], ctx)
    requires !Turn(q, plans[|plans| - 1], ctx).failed
    ensures AllConverged(Turn(q, plans[|plans| - 1], ctx).objects, plans, ctx)
  {
    var n := |plans| - 1;
    TurnConverges(q, plans[n], ctx);
    forall i | 0 <= i < n
      ensures plans[i].objects.Ok? && Converged(Turn(q, plans[n], ctx).objects, Desired(plans[i].objects.value, ctx))
    {
      assert plans[..n][i] == plans[i];
      KeepsConverged(q, plans[n], ctx, plans[i]);
    }
  }

  /** From any store whatever, a loop that does not fail leaves the operator-owned part of
      every operand of every component equal to its desired value. */
  lemma {:induction false} LoopConverges(p: Progress, plans: seq<Plan>, ctx: Context)
    requires SoundPlans(plans) && !Loop(p, plans, ctx).failed
    ensures AllConverged(Loop(p, plans, ctx).objects, plans, ctx)
  {
    if plans == [] {
    } else {
      var n := |plans| - 1;
      assert !Loop(p, plans[..n], ctx).failed;
      LoopConverges(p, plans[..n], ctx);
      ConvergesNext(Loop(p, plans[..n], ctx), plans, ctx);
    }
  }

  lemma ReportFrame(p: Progress, plan: Plan, ctx: Context, others: seq<Plan>)
    requires forall i | 0 <= i < |others| :: !Owns(plan, others[i].deployment)
    ensures ReportsFor(Turn(p, plan, ctx).objects, others) == ReportsFor(p.objects, others)
  {
    forall i | 0 <= i < |others|
      ensures ReportFor(Turn(p, plan, ctx).objects, others[i]) == ReportFor(p.objects, others[i])
    {
      TurnFrame(p, plan, ctx, others[i].deployment);
    }
  }

  lemma ReportsAppend(objects: Store, plans: seq<Plan>)
    requires plans != []
    ensures var n := |plans| - 1;
            ReportsFor(objects, plans) == ReportsFor(objects, plans[..n]) + [ReportFor(objects, plans[n])]
  {
  }

  lemma TurnReports(p: Progress, plan: Plan, ctx: Context)
    requires !Turn(p, plan, ctx).failed
    ensures Turn(p, plan, ctx).reports == p.reports + [ReportFor(Turn(p, plan, ctx).objects, plan)]
  {
  }

  /** What is reported is the health of the final store: later components do not disturb
      what was read for earlier ones. */
  lemma {:induction false} LoopReports(p: Progress, plans: seq<Plan>, ctx: Context)
    requires SoundPlans(plans) && !Loop(p, plans, ctx).failed
    ensures Loop(p, plans, ctx).reports == p.reports + ReportsFor(Loop(p, plans, ctx).objects, plans)
  {
    if plans == [] {
    } else {
      var n := |plans| - 1;
      var q, r := Loop(p, plans[..n], ctx), Loop(p, plans, ctx);
      LoopReports(p, plans[..n], ctx);
      forall i | 0 <= i < n ensures !Owns(plans[n], plans[..n][i].deployment) {
        assert plans[..n][i] == plans[i];
      }
      ReportFrame(q, plans[n], ctx, plans[..n]);
      TurnReports(q, plans[n], ctx);
      ReportsAppend(r.objects, plans);
      AppendThree(p.reports, ReportsFor(r.objects, plans[..n]), [ReportFor(r.objects, plans[n])]);
    }
  }

  lemma AppendThree(a: seq<ComponentConditions>, b: seq<ComponentConditions>, c: seq<ComponentConditions>)
    ensures (a + b) + c == a + (b + c)
  {
  }

  // ----- a second pass -----

  lemma DesiredRaisesNothing(plan: Plan, objects: Store, ctx: Context)
    requires plan.objects.Ok? && Converged(objects, Desired(plan.objects.value, ctx))
    ensures Detected(plan.name, plan.objects.value, ctx.digest, objects, ctx.faults) == []
  {
    ConvergedRaisesNothing(plan.name, plan.objects.value, Desired(plan.objects.value, ctx), ctx.digest, objects,
      ctx.faults);
  }

  /** Over a converged store the loop writes nothing and counts nothing, even when it is cut
      short; when it is not, it reports the health it finds. */
  lemma {:induction false} LoopIdempotent(p: Progress, plans: seq<Plan>, ctx: Context, settled: Context)
    requires ctx.digest == settled.digest && ctx.owner == settled.owner
    requires AllConverged(p.objects, plans, settled)
    ensures Loop(p, plans, ctx).objects == p.objects && Loop(p, plans, ctx).counted == p.counted
    ensures !Loop(p, plans, ctx).failed ==> Loop(p, plans, ctx).reports == p.reports + ReportsFor(p.objects, plans)
  {
    if plans == [] {
    } else {
      var n := |plans| - 1;
      forall i | 0 <= i < n ensures plans[..n][i].objects.Ok? {
        assert plans[..n][i] == plans[i];
      }
      LoopIdempotent(p, plans[..n], ctx, settled);
      assert Desired(plans[n].objects.value, ctx) == Desired(plans[n].objects.value, settled);
      AppliedIdempotent(p.objects, Desired(plans[n].objects.value, ctx), ctx.faults);
      DesiredRaisesNothing(plans[n], p.objects, ctx);
      assert ReportsFor(p.objects, plans) == ReportsFor(p.objects, plans[..n]) + [ReportFor(p.objects, plans[n])];
    }
  }

  // ----- when the loop fails -----

  predicate RequestFails(f: Faults, k: Key) {
    f.apply(k) != Acknowledged || f.refresh(k)
  }

  lemma {:induction false} AppliedSucceedsIff(objects: Store, objs: seq<Operand>, f: Faults)
    ensures Applied(objects, objs, f).1 <==> forall i | 0 <= i < |objs| :: !RequestFails(f, KeyOf(objs[i]))
    decreases objs
  {
    if objs == [] {
    } else {
      AppliedSucceedsIff(Apply(objects, objs[0]), objs[1..], f);
      assert forall i | 0 <= i < |objs| - 1 :: objs[1..][i] == objs[i + 1];
    }
  }

  ghost predicate PlanFails(plan: Plan, f: Faults) {
    plan.objects.Failed? || exists i :: 0 <= i < |plan.objects.value| && RequestFails(f, KeyOf(plan.objects.value[i]))
  }

  lemma TurnFailsIff(p: Progress, plan: Plan, ctx: Context)
    ensures Turn(p, plan, ctx).failed <==> p.failed || PlanFails(plan, ctx.faults)
  {
    if plan.objects.Ok? {
      var objs := plan.objects.value;
      AppliedSucceedsIff(p.objects, Desired(objs, ctx), ctx.faults);
      assert forall i | 0 <= i < |objs| :: KeyOf(Desired(objs, ctx)[i]) == KeyOf(objs[i]);
    }
  }

  /** The loop fails exactly when a component does not render or a request for one of its
      operands fails, whatever the store holds. */
  lemma {:induction false} LoopFailsIff(p: Progress, plans: seq<Plan>, ctx: Context)
    ensures Loop(p, plans, ctx).failed <==> p.failed || exists plan :: plan in plans && PlanFails(plan, ctx.faults)
  {
    if plans == [] {
    } else {
      var n := |plans| - 1;
      LoopFailsIff(p, plans[..n], ctx);
      TurnFailsIff(Loop(p, plans[..n], ctx), plans[n], ctx);
      assert plans == plans[..n] + [plans[n]];
    }
  }

  // ----- counting -----

  lemma {:induction false} NoDeploymentNoEvent(component: string, objs: seq<Operand>, ctx: Context, objects: Store)
    requires forall i | 0 <= i < |objs| :: !objs[i].Deployment?
    ensures Detected(component, objs, ctx.digest, objects, ctx.faults) == []
  {
    if objs == [] {
    } else {
      NoDeploymentNoEvent(component, objs[..|objs| - 1], ctx, objects);
    }
  }

  predicate Landed(after: Store, d: Operand) {
    KeyOf(d) in after && after[KeyOf(d)].owned == d
  }

  predicate Untouched(before: Store, after: Store, k: Key) {
    (k in after <==> k in before) && (k in before ==> after[k] == before[k])
  }

  /** How one pass may leave its last operand. */
  predicate Ends(before: Store, after: Store, ok: bool, d: Operand, f: Faults) {
    if ok then Landed(after, d) && !RequestFails(f, KeyOf(d))
    else Untouched(before, after, KeyOf(d))
         || (Landed(after, d) && (f.apply(KeyOf(d)) == Unanswered || f.refresh(KeyOf(d))))
  }

  lemma ApplyLands(objects: Store, d: Operand)
    ensures Landed(Apply(objects, d), d)
    ensures forall k | k != KeyOf(d) :: Untouched(objects, Apply(objects, d), k)
  {
  }

  lemma EndsLater(before: Store, middle: Store, after: Store, ok: bool, d: Operand, f: Faults)
    requires Untouched(before, middle, KeyOf(d)) && Ends(middle, after, ok, d, f)
    ensures Ends(before, after, ok, d, f)
  {
  }

  /** The last operand is written exactly when its own request gets through, and the pass
      succeeds only then. */
  lemma {:induction false} AppliedLast(objects: Store, objs: seq<Operand>, f: Faults)
    requires objs != [] && DistinctOperands(objs)
    ensures Ends(objects, Applied(objects, objs, f).0, Applied(objects, objs, f).1, objs[|objs| - 1], f)
    decreases objs
  {
    var d, next := objs[|objs| - 1], Apply(objects, objs[0]);
    ApplyLands(objects, objs[0]);
    if |objs| == 1 {
    } else {
      assert KeyOf(objs[0]) != KeyOf(d);
      AppliedLast(next, objs[1..], f);
      EndsLater(objects, next, Applied(next, objs[1..], f).0, Applied(next, objs[1..], f).1, d, f);
    }
  }

  /** Detection, made before the write, agrees with what the stores show after it: one event
      of the trigger that replaced the pods, unless it is hidden, and none otherwise. */
  lemma DetectionMatches(component: string, d: Operand, before: Store, after: Store, ctx: Context, t: Trigger)
    requires d.Deployment? && Honest(before, KeyOf(d), ctx.digest) && Landed(after, d)
    requires !RequestFails(ctx.faults, KeyOf(d))
    ensures Count(EventsFor(component, d, ctx.digest, before, ctx.faults), Event(component, t)) ==
            Bit(Rollout(before, after, KeyOf(d), ctx.digest) == Some(t) && !Hidden(before, KeyOf(d), ctx.faults, t))
  {
    var events := EventsFor(component, d, ctx.digest, before, ctx.faults);
    if events == [] {
    } else {
      CountOne(Event(component, t), events[0]);
      assert events == [events[0]];
    }
  }

  lemma DesiredLast(plan: Plan, ctx: Context)
    requires SoundPlan(plan) && plan.objects.Ok?
    ensures var objs := plan.objects.value;
            var d := Desired(objs, ctx)[|objs| - 1];
            && d.Deployment? && KeyOf(d) == plan.deployment && d.template == objs[|objs| - 1].template
            && Lookup(d.annotations, TEMPLATE_HASH_ANNOTATION) == ctx.digest(d.template)
            && DistinctOperands(Desired(objs, ctx))
  {
  }

  lemma TurnEvents(plan: Plan, ctx: Context, objects: Store)
    requires SoundPlan(plan) && plan.objects.Ok?
    ensures var objs := plan.objects.value;
            Detected(plan.name, objs, ctx.digest, objects, ctx.faults) ==
            EventsFor(plan.name, Desired(objs, ctx)[|objs| - 1], ctx.digest, objects, ctx.faults)
  {
    DesiredLast(plan, ctx);
    NoDeploymentNoEvent(plan.name, plan.objects.value[..|plan.objects.value| - 1], ctx, objects);
  }

  /** Exactly what a turn may add to its component's counter for one trigger. */
  predicate AddsExactly(before: Progress, after: Progress, name: string, k: Key, ctx: Context, t: Trigger)
    requires k.kind == DeploymentKind
  {
    Count(after.counted, Event(name, t)) == Count(before.counted, Event(name, t))
      + Bit(Rollout(before.objects, after.objects, k, ctx.digest) == Some(t)
            && !Hidden(before.objects, k, ctx.faults, t))
  }

  lemma EndCounts(p: Progress, q: Progress, name: string, d: Operand, ok: bool, ctx: Context, t: Trigger)
    requires d.Deployment? && Honest(p.objects, KeyOf(d), ctx.digest) && Ends(p.objects, q.objects, ok, d, ctx.faults)
    requires q.counted == p.counted + if ok then EventsFor(name, d, ctx.digest, p.objects, ctx.faults) else []
    ensures AddsExactly(p, q, name, KeyOf(d), ctx, t)
  {
    if ok {
      DetectionMatches(name, d, p.objects, q.objects, ctx, t);
      CountAppend(p.counted, EventsFor(name, d, ctx.digest, p.objects, ctx.faults), Event(name, t));
    } else {
      assert p.counted + [] == p.counted;
    }
  }

  /** The effect of one component's turn on its own Deployment, as the counter sees it. */
  lemma TurnCounts(p: Progress, plan: Plan, ctx: Context, t: Trigger)
    requires SoundPlan(plan) && Honest(p.objects, plan.deployment, ctx.digest)
    ensures AddsExactly(p, Turn(p, plan, ctx), plan.name, plan.deployment, ctx, t)
  {
    if !p.failed && plan.objects.Ok? {
      var ds := Desired(plan.objects.value, ctx);
      DesiredLast(plan, ctx);
      TurnEvents(plan, ctx, p.objects);
      AppliedLast(p.objects, ds, ctx.faults);
      assert p.counted + [] == p.counted;
      EndCounts(p, Turn(p, plan, ctx), plan.name, ds[|ds| - 1], Applied(p.objects, ds, ctx.faults).1, ctx, t);
    }
  }

  lemma EndKeepsHashes(before: Store, after: Store, ok: bool, d: Operand, ctx: Context)
    requires d.Deployment? && Ends(before, after, ok, d, ctx.faults) && Honest(before, KeyOf(d), ctx.digest)
    requires Lookup(d.annotations, TEMPLATE_HASH_ANNOTATION) == ctx.digest(d.template)
    ensures Honest(after, KeyOf(d), ctx.digest)
    ensures Recorded(before, KeyOf(d)) && NeverEmpty(ctx.digest) ==> Recorded(after, KeyOf(d))
  {
  }

  lemma TurnKeepsHashes(p: Progress, plan: Plan, ctx: Context)
    requires SoundPlan(plan) && Honest(p.objects, plan.deployment, ctx.digest)
    ensures Honest(Turn(p, plan, ctx).objects, plan.deployment, ctx.digest)
    ensures Recorded(p.objects, plan.deployment) && NeverEmpty(ctx.digest) ==>
              Recorded(Turn(p, plan, ctx).objects, plan.deployment)
  {
    if !p.failed && plan.objects.Ok? {
      var ds := Desired(plan.objects.value, ctx);
      var end := Applied(p.objects, ds, ctx.faults);
      DesiredLast(plan, ctx);
      AppliedLast(p.objects, ds, ctx.faults);
      EndKeepsHashes(p.objects, end.0, end.1, ds[|ds| - 1], ctx);
    }
  }

  lemma {:induction false} EventsNamed(component: string, objs: seq<Operand>, ctx: Context, objects: Store)
    ensures forall e | e in Detected(component, objs, ctx.digest, objects, ctx.faults) :: e.component == component
  {
    if objs == [] {
    } else {
      EventsNamed(component, objs[..|objs| - 1], ctx, objects);
    }
  }

  lemma {:induction false} CountOther(events: seq<Event>, e: Event)
    requires e !in events
    ensures Count(events, e) == 0
  {
    if events == [] {
    } else {
      assert events[|events| - 1] in events;
      CountOther(events[..|events| - 1], e);
    }
  }

  lemma TurnCountsNothingElse(p: Progress, plan: Plan, ctx: Context, e: Event)
    requires plan.name != e.component
    ensures Count(Turn(p, plan, ctx).counted, e) == Count(p.counted, e)
  {
    if !p.failed && plan.objects.Ok? {
      var events := Detected(plan.name, plan.objects.value, ctx.digest, p.objects, ctx.faults);
      EventsNamed(plan.name, plan.objects.value, ctx, p.objects);
      CountOther(events, e);
      CountAppend(p.counted, events, e);
    }
  }

  lemma {:induction false} LoopCountsNothingElse(p: Progress, plans: seq<Plan>, ctx: Context, e: Event)
    requires forall i | 0 <= i < |plans| :: plans[i].name != e.component
    ensures Count(Loop(p, plans, ctx).counted, e) == Count(p.counted, e)
  {
    if plans == [] {
    } else {
      var n := |plans| - 1;
      LoopCountsNothingElse(p, plans[..n], ctx, e);
      TurnCountsNothingElse(Loop(p, plans[..n], ctx), plans[n], ctx, e);
    }
  }

  lemma OthersDoNotOwn(plans: seq<Plan>, i: nat)
    requires SoundPlans(plans) && i == |plans| - 1
    ensures forall j | 0 <= j < i :: !Owns(plans[..i][j], plans[i].deployment) && plans[..i][j].name != plans[i].name
  {
    forall j | 0 <= j < i ensures plans[..i][j] == plans[j] {
    }
  }

  /** What holds of a Deployment and its counter carries over steps that touch neither. */
  lemma AddsEarlier(p: Progress, q: Progress, r: Progress, name: string, k: Key, ctx: Context, t: Trigger)
    requires k.kind == DeploymentKind && AddsExactly(p, q, name, k, ctx, t)
    requires Untouched(q.objects, r.objects, k) && Count(r.counted, Event(name, t)) == Count(q.counted, Event(name, t))
    ensures AddsExactly(p, r, name, k, ctx, t)
    ensures Honest(q.objects, k, ctx.digest) ==> Honest(r.objects, k, ctx.digest)
    ensures Recorded(q.objects, k) ==> Recorded(r.objects, k)
  {
  }

  lemma AddsLater(p: Progress, q: Progress, r: Progress, name: string, k: Key, ctx: Context, t: Trigger)
    requires k.kind == DeploymentKind && AddsExactly(q, r, name, k, ctx, t)
    requires Untouched(p.objects, q.objects, k) && Count(q.counted, Event(name, t)) == Count(p.counted, Event(name, t))
    ensures AddsExactly(p, r, name, k, ctx, t)
  {
  }

  lemma SameHashes(before: Store, after: Store, k: Key, digest: PodTemplate -> string)
    requires k.kind == DeploymentKind && Untouched(before, after, k)
    ensures Honest(before, k, digest) ==> Honest(after, k, digest)
    ensures Recorded(before, k) ==> Recorded(after, k)
  {
  }

  lemma TurnUntouched(p: Progress, plan: Plan, ctx: Context, k: Key, e: Event)
    requires !Owns(plan, k) && plan.name != e.component
    ensures Untouched(p.objects, Turn(p, plan, ctx).objects, k)
    ensures Count(Turn(p, plan, ctx).counted, e) == Count(p.counted, e)
  {
    TurnFrame(p, plan, ctx, k);
    TurnCountsNothingElse(p, plan, ctx, e);
  }

  lemma LoopUntouched(p: Progress, plans: seq<Plan>, ctx: Context, k: Key, e: Event)
    requires forall i | 0 <= i < |plans| :: !Owns(plans[i], k) && plans[i].name != e.component
    ensures Untouched(p.objects, Loop(p, plans, ctx).objects, k)
    ensures Count(Loop(p, plans, ctx).counted, e) == Count(p.counted, e)
  {
    LoopFrame(p, plans, ctx, k);
    LoopCountsNothingElse(p, plans, ctx, e);
  }

  /** What one reconcile counts for a component and a trigger, exactly: one if the stores
      before and after show such a rollout of its Deployment and nothing hid it, else none. */
  lemma {:induction false} LoopCounts(p: Progress, plans: seq<Plan>, ctx: Context, i: nat, t: Trigger)
    requires SoundPlans(plans) && i < |plans| && plans[i].deployment.kind == DeploymentKind
    requires Honest(p.objects, plans[i].deployment, ctx.digest)
    ensures AddsExactly(p, Loop(p, plans, ctx), plans[i].name, plans[i].deployment, ctx, t)
    ensures Honest(Loop(p, plans, ctx).objects, plans[i].deployment, ctx.digest)
    ensures Recorded(p.objects, plans[i].deployment) && NeverEmpty(ctx.digest) ==>
              Recorded(Loop(p, plans, ctx).objects, plans[i].deployment)
  {
    var n := |plans| - 1;
    var q, r := Loop(p, plans[..n], ctx), Loop(p, plans, ctx);
    var name, k := plans[i].name, plans[i].deployment;
    if i == n {
      OthersDoNotOwn(plans, i);
      LoopUntouched(p, plans[..n], ctx, k, Event(name, t));
      SameHashes(p.objects, q.objects, k, ctx.digest);
      TurnCounts(q, plans[n], ctx, t);
      TurnKeepsHashes(q, plans[n], ctx);
      AddsLater(p, q, r, name, k, ctx, t);
    } else {
      assert plans[..n][i] == plans[i];
      LoopCounts(p, plans[..n], ctx, i, t);
      TurnUntouched(q, plans[n], ctx, k, Event(name, t));
      AddsEarlier(p, q, r, name, k, ctx, t);
    }
  }

  // ----- a rollout that is never counted -----

  lemma {:induction false} AppliedReachesLast(objects: Store, objs: seq<Operand>, f: Faults)
    requires objs != [] && DistinctOperands(objs)
    requires forall i | 0 <= i < |objs| - 1 :: !RequestFails(f, KeyOf(objs[i]))
    requires f.apply(KeyOf(objs[|objs| - 1])) != Rejected
    ensures Landed(Applied(objects, objs, f).0, objs[|objs| - 1])
    decreases objs
  {
    ApplyLands(objects, objs[0]);
    if |objs| > 1 {
      assert forall i | 0 <= i < |objs| - 1 :: objs[1..][i] == objs[i + 1];
      AppliedReachesLast(Apply(objects, objs[0]), objs[1..], f);
    } else {
      assert objs[1..] == [];
    }
  }

  /** The plan's requests before the one for its Deployment succeed, and that one is carried out. */
  ghost predicate ReachesLast(plan: Plan, f: Faults) {
    && plan.objects.Ok? && f.apply(plan.deployment) != Rejected
    && forall m | 0 <= m < |plan.objects.value| - 1 :: !RequestFails(f, KeyOf(plan.objects.value[m]))
  }

  /** Every request up to the Deployment of plan `i` succeeds, and that one is carried out. */
  ghost predicate Reaches(plans: seq<Plan>, i: nat, f: Faults) {
    i < |plans| && ReachesLast(plans[i], f) && forall j | 0 <= j < i :: !PlanFails(plans[j], f)
  }

  /** The store holds the plan's Deployment as desired. */
  predicate Holds(objects: Store, plan: Plan, ctx: Context) {
    plan.objects.Ok? &&
    var ds := Desired(plan.objects.value, ctx);
    ds != [] && ds[|ds| - 1].Deployment? && KeyOf(ds[|ds| - 1]) == plan.deployment && Landed(objects, ds[|ds| - 1])
  }

  lemma HoldsLater(before: Store, after: Store, plan: Plan, ctx: Context)
    requires Holds(before, plan, ctx) && Untouched(before, after, plan.deployment)
    ensures Holds(after, plan, ctx)
  {
  }

  lemma TurnReaches(p: Progress, plan: Plan, ctx: Context)
    requires !p.failed && SoundPlan(plan) && ReachesLast(plan, ctx.faults)
    ensures Holds(Turn(p, plan, ctx).objects, plan, ctx)
  {
    DesiredLast(plan, ctx);
    AppliedReachesLast(p.objects, Desired(plan.objects.value, ctx), ctx.faults);
  }

  lemma {:induction false} LoopReaches(p: Progress, plans: seq<Plan>, ctx: Context, i: nat)
    requires SoundPlans(plans) && !p.failed && Reaches(plans, i, ctx.faults)
    ensures Holds(Loop(p, plans, ctx).objects, plans[i], ctx)
  {
    var n := |plans| - 1;
    var q := Loop(p, plans[..n], ctx);
    if i == n {
      LoopFailsIff(p, plans[..n], ctx);
      TurnReaches(q, plans[n], ctx);
    } else {
      assert plans[..n][i] == plans[i];
      LoopReaches(p, plans[..n], ctx, i);
      TurnFrame(q, plans[n], ctx, plans[i].deployment);
      HoldsLater(q.objects, Loop(p, plans, ctx).objects, plans[i], ctx);
    }
  }

  lemma {:induction false} AppliedMissesLast(objects: Store, objs: seq<Operand>, f: Faults, m: nat)
    requires DistinctOperands(objs) && m < |objs|
    requires if m == |objs| - 1 then f.apply(KeyOf(objs[m])) == Rejected else RequestFails(f, KeyOf(objs[m]))
    ensures Untouched(objects, Applied(objects, objs, f).0, KeyOf(objs[|objs| - 1]))
    decreases objs
  {
    ApplyLands(objects, objs[0]);
    if m == 0 {
    } else {
      assert objs[1..][m - 1] == objs[m];
      AppliedMissesLast(Apply(objects, objs[0]), objs[1..], f, m - 1);
    }
  }

  lemma DesiredMisses(objects: Store, plan: Plan, ctx: Context, m: nat)
    requires SoundPlan(plan) && plan.objects.Ok? && m < |plan.objects.value|
    requires if m == |plan.objects.value| - 1 then ctx.faults.apply(plan.deployment) == Rejected
             else RequestFails(ctx.faults, KeyOf(plan.objects.value[m]))
    ensures Untouched(objects, Applied(objects, Desired(plan.objects.value, ctx), ctx.faults).0, plan.deployment)
  {
    DesiredLast(plan, ctx);
    AppliedMissesLast(objects, Desired(plan.objects.value, ctx), ctx.faults, m);
  }

  lemma TurnMisses(p: Progress, plan: Plan, ctx: Context)
    requires SoundPlan(plan) && (p.failed || !ReachesLast(plan, ctx.faults))
    ensures Untouched(p.objects, Turn(p, plan, ctx).objects, plan.deployment)
  {
    if !p.failed && plan.objects.Ok? {
      var n := |plan.objects.value| - 1;
      var m := n;
      if ctx.faults.apply(plan.deployment) != Rejected {
        m :| 0 <= m < n && RequestFails(ctx.faults, KeyOf(plan.objects.value[m]));
      }
      DesiredMisses(p.objects, plan, ctx, m);
    }
  }

  lemma UntouchedTwice(a: Store, b: Store, c: Store, k: Key)
    requires Untouched(a, b, k) && Untouched(b, c, k)
    ensures Untouched(a, c, k)
  {
  }

  lemma StopsBefore(p: Progress, plans: seq<Plan>, ctx: Context)
    requires plans != [] && !Reaches(plans, |plans| - 1, ctx.faults)
    ensures var n := |plans| - 1;
            Loop(p, plans[..n], ctx).failed || !ReachesLast(plans[n], ctx.faults)
  {
    var n := |plans| - 1;
    if ReachesLast(plans[n], ctx.faults) {
      var j :| 0 <= j < n && PlanFails(plans[j], ctx.faults);
      assert plans[..n][j] in plans[..n];
      LoopFailsIff(p, plans[..n], ctx);
    }
  }

  /** Otherwise the Deployment is not touched at all. */
  lemma {:induction false} LoopMisses(p: Progress, plans: seq<Plan>, ctx: Context, i: nat)
    requires SoundPlans(plans) && i < |plans| && !p.failed && !Reaches(plans, i, ctx.faults)
    ensures Untouched(p.objects, Loop(p, plans, ctx).objects, plans[i].deployment)
  {
    var n := |plans| - 1;
    var q := Loop(p, plans[..n], ctx);
    var k := plans[i].deployment;
    if i == n {
      OthersDoNotOwn(plans, i);
      LoopFrame(p, plans[..n], ctx, k);
      StopsBefore(p, plans, ctx);
      TurnMisses(q, plans[n], ctx);
      UntouchedTwice(p.objects, q.objects, Loop(p, plans, ctx).objects, k);
    } else {
      assert plans[..n][i] == plans[i];
      LoopMisses(p, plans[..n], ctx, i);
      TurnFrame(q, plans[n], ctx, k);
      UntouchedTwice(p.objects, q.objects, Loop(p, plans, ctx).objects, k);
    }
  }

  /** A lost reply or a refresh that fails after the write: the Deployment holds its desired
      value, so the rollout shows in the stores whenever that value is new, and the counter does
      not move for any trigger. */
  lemma RefreshFailureLosesEvent(p: Progress, plans: seq<Plan>, ctx: Context, i: nat, t: Trigger)
    requires SoundPlans(plans) && !p.failed && Reaches(plans, i, ctx.faults)
    requires plans[i].deployment.kind == DeploymentKind && Honest(p.objects, plans[i].deployment, ctx.digest)
    requires RequestFails(ctx.faults, plans[i].deployment)
    ensures Holds(Loop(p, plans, ctx).objects, plans[i], ctx)
    ensures Count(Loop(p, plans, ctx).counted, Event(plans[i].name, t)) == Count(p.counted, Event(plans[i].name, t))
  {
    LoopReaches(p, plans, ctx, i);
    LoopCounts(p, plans, ctx, i, t);
  }
}
