/** The published status word for word: which component a condition speaks of, with which reason
    and message, after a reconcile and at any moment of a run. */
module StatusInWords {
  import opened Strings
  import opened Sorting
  import opened Conditions
  import opened Status
  import opened Operands
  import opened Rollouts
  import opened ReconcileLoop
  import opened Controller
  import opened Convergence
  import opened ControllerRuns
  import opened PublishedStatus
  import opened PublishedRuns
  import opened StoredOperands
  import Bundle
  import Health
  import MissingSecrets
  import StatusRuns

  /** A condition that reads exactly so. */
  predicate Reads(c: Option<Condition>, status: ConditionStatus, reason: string, message: string, generation: nat) {
    && c.Some? && c.value.status == status && c.value.reason == reason && c.value.message == message
    && c.value.observedGeneration == generation
  }

  /** How messages name component `i`. */
  function SubjectAt(i: nat): string
    requires i <= |Bundle.CLOUD_CAPI_ENTITIES|
  {
    if i == 0 then "the API" else "the Sentinel (" + Bundle.CLOUD_CAPI_ENTITIES[i - 1].plural + ")"
  }

  /** The Deployment of component `i` exists and wants one replica, as every component is rendered. */
  predicate WantsOne(objects: Store, namespace: string, i: nat)
    requires i <= |Bundle.CLOUD_CAPI_ENTITIES|
  {
    var k := DeploymentAt(namespace, i);
    k in objects && objects[k].owned.Deployment? && objects[k].owned.replicas == Some(1)
  }

  predicate Up(objects: Store, namespace: string, i: nat)
    requires i <= |Bundle.CLOUD_CAPI_ENTITIES| && WantsOne(objects, namespace, i)
  {
    objects[DeploymentAt(namespace, i)].status.availableReplicas >= 1
  }

  predicate Done(objects: Store, namespace: string, i: nat)
    requires i <= |Bundle.CLOUD_CAPI_ENTITIES| && WantsOne(objects, namespace, i)
  {
    var d := objects[DeploymentAt(namespace, i)];
    && d.status.observedGeneration >= d.generation
    && 1 <= d.status.updatedReplicas == d.status.replicas <= d.status.availableReplicas
  }

  /** The two conditions of component `i`, as its Deployment is stored. */
  function AvailableOf(objects: Store, namespace: string, i: nat): Condition
    requires i <= |Bundle.CLOUD_CAPI_ENTITIES| && WantsOne(objects, namespace, i)
  {
    if Up(objects, namespace, i)
    then Condition(AVAILABLE, True, "DeploymentAvailable", SubjectAt(i) + " Deployment is available", 0, 0)
    else Condition(AVAILABLE, False, "DeploymentUnavailable",
           SubjectAt(i) + " Deployment has no available replicas", 0, 0)
  }

  function ProgressingOf(objects: Store, namespace: string, i: nat): Condition
    requires i <= |Bundle.CLOUD_CAPI_ENTITIES| && WantsOne(objects, namespace, i)
  {
    if Done(objects, namespace, i)
    then Condition(PROGRESSING, False, "RolloutComplete", SubjectAt(i) + " Deployment rollout is complete", 0, 0)
    else Condition(PROGRESSING, True, "RolloutInProgress",
           SubjectAt(i) + " Deployment rollout has not completed", 0, 0)
  }

  // ----- what is stored and reported -----

  lemma StoredWantsOne(fn: Functions, w: World, given: Inputs, i: nat)
    requires !Body(fn, w, given).findings.failed && ReachesLoop(w, given) && i <= |Bundle.CLOUD_CAPI_ENTITIES|
    ensures WantsOne(Body(fn, w, given).objects, w.config.namespace, i)
  {
    var spec, url := given.cr.spec, JWKSURL(w, given).value;
    SameTier(w.config, spec, url, url, i);
    Converges(fn, w, given);
    DeploymentConverged(fn, Plans(fn, w.config, w.secrets, spec, url), i, Body(fn, w, given).objects, given.cr.name,
      given.faults, Components(w.config, spec, url)[i], spec, w.secrets);
  }

  /** Plan `i` is that of component `i`. */
  predicate IsPlan(plan: Plan, namespace: string, i: nat)
    requires i <= |Bundle.CLOUD_CAPI_ENTITIES|
  {
    plan.name == NameAt(i) && plan.deployment == DeploymentAt(namespace, i) && plan.subject == SubjectAt(i)
  }

  lemma PlanSubject(fn: Functions, config: Bundle.Config, secrets: map<string, string>, spec: Spec, url: string, i: nat)
    requires Bundle.Resolved(spec.bundle, config).Ok? && i <= |Bundle.CLOUD_CAPI_ENTITIES|
    ensures var plans := Plans(fn, config, secrets, spec, url);
            |plans| == 1 + |Bundle.CLOUD_CAPI_ENTITIES| && IsPlan(plans[i], config.namespace, i)
  {
    PlanAt(fn, config, secrets, spec, url, i);
  }

  lemma ReportOf(objects: Store, plan: Plan, namespace: string, i: nat)
    requires i <= |Bundle.CLOUD_CAPI_ENTITIES| && IsPlan(plan, namespace, i) && WantsOne(objects, namespace, i)
    ensures ReportFor(objects, plan) ==
            ComponentConditions(NameAt(i), [AvailableOf(objects, namespace, i), ProgressingOf(objects, namespace, i)])
  {
    Health.SingleReplica(SubjectAt(i), objects[DeploymentAt(namespace, i)]);
  }

  /** The reports are those of the components in bundle order. */
  ghost predicate InOrder(reports: seq<ComponentConditions>, objects: Store, namespace: string) {
    && |reports| == 1 + |Bundle.CLOUD_CAPI_ENTITIES|
    && forall i | 0 <= i < |reports| ::
         && WantsOne(objects, namespace, i)
         && reports[i] == ComponentConditions(NameAt(i),
              [AvailableOf(objects, namespace, i), ProgressingOf(objects, namespace, i)])
  }

  lemma ReportedInOrder(fn: Functions, w: World, given: Inputs)
    requires !Body(fn, w, given).findings.failed && ReachesLoop(w, given)
    ensures InOrder(Body(fn, w, given).findings.reports, Body(fn, w, given).objects, w.config.namespace)
  {
    var plans := Plans(fn, w.config, w.secrets, given.cr.spec, JWKSURL(w, given).value);
    var after := Body(fn, w, given).objects;
    SuccessReports(fn, w, given);
    PlanSubject(fn, w.config, w.secrets, given.cr.spec, JWKSURL(w, given).value, 0);
    forall i: nat | i < |plans|
      ensures WantsOne(after, w.config.namespace, i)
      ensures ReportFor(after, plans[i]) ==
              ComponentConditions(NameAt(i),
                [AvailableOf(after, w.config.namespace, i), ProgressingOf(after, w.config.namespace, i)])
    {
      StoredWantsOne(fn, w, given, i);
      PlanSubject(fn, w.config, w.secrets, given.cr.spec, JWKSURL(w, given).value, i);
      ReportOf(after, plans[i], w.config.namespace, i);
    }
  }

  // ----- the two roll-ups -----

  lemma {:induction false} FlattenPairs(reports: seq<ComponentConditions>)
    requires forall i | 0 <= i < |reports| :: |reports[i].conditions| == 2
    ensures |Flatten(reports)| == 2 * |reports|
    ensures forall i | 0 <= i < |reports| ::
              Flatten(reports)[2 * i] == reports[i].conditions[0]
              && Flatten(reports)[2 * i + 1] == reports[i].conditions[1]
  {
    if reports == [] {
    } else {
      FlattenPairs(reports[..|reports| - 1]);
    }
  }

  lemma Halve(m: nat) returns (i: nat, odd: bool)
    ensures m == if odd then 2 * i + 1 else 2 * i
  {
    i, odd := m / 2, m % 2 == 1;
  }

  /** Two positions of the flattened list belong to each component. */
  lemma FlatAt(reports: seq<ComponentConditions>, objects: Store, namespace: string, i: nat, m: nat, odd: bool)
    requires InOrder(reports, objects, namespace) && i < |reports| && m == if odd then 2 * i + 1 else 2 * i
    ensures m < |Flatten(reports)|
    ensures Flatten(reports)[m] ==
            if odd then ProgressingOf(objects, namespace, i) else AvailableOf(objects, namespace, i)
  {
    FlattenPairs(reports);
    assert reports[i].conditions == [AvailableOf(objects, namespace, i), ProgressingOf(objects, namespace, i)];
  }

  lemma EarlierUp(reports: seq<ComponentConditions>, objects: Store, namespace: string, n: nat, m: nat)
    requires InOrder(reports, objects, namespace) && n <= |reports| && m < |Flatten(reports)|
    requires forall j | 0 <= j < n :: Up(objects, namespace, j)
    requires m < 2 * n
    ensures Flatten(reports)[m].kind == AVAILABLE ==> Flatten(reports)[m].status == True
  {
    var i, odd := Halve(m);
    FlatAt(reports, objects, namespace, i, m, odd);
    assert Up(objects, namespace, i);
  }

  lemma FirstDown(reports: seq<ComponentConditions>, objects: Store, namespace: string, i: nat, at: nat)
    requires InOrder(reports, objects, namespace) && i < |reports| && !Up(objects, namespace, i)
    requires (forall j | 0 <= j < i :: Up(objects, namespace, j)) && at == 2 * i
    ensures FirstAt(AVAILABLE, Flatten(reports), True, at)
    ensures Flatten(reports)[at] == AvailableOf(objects, namespace, i)
  {
    var flat := Flatten(reports);
    FlatAt(reports, objects, namespace, i, at, false);
    forall m | 0 <= m < at && flat[m].kind == AVAILABLE ensures flat[m].status == True {
      EarlierUp(reports, objects, namespace, i, m);
    }
  }

  lemma NoneDown(reports: seq<ComponentConditions>, objects: Store, namespace: string)
    requires InOrder(reports, objects, namespace) && forall j | 0 <= j < |reports| :: Up(objects, namespace, j)
    ensures forall m | 0 <= m < |Flatten(reports)| && Flatten(reports)[m].kind == AVAILABLE ::
              Flatten(reports)[m].status == True
  {
    var flat := Flatten(reports);
    FlattenPairs(reports);
    forall m | 0 <= m < |flat| && flat[m].kind == AVAILABLE ensures flat[m].status == True {
      EarlierUp(reports, objects, namespace, |reports|, m);
    }
  }

  lemma EarlierDone(reports: seq<ComponentConditions>, objects: Store, namespace: string, n: nat, m: nat)
    requires InOrder(reports, objects, namespace) && n <= |reports| && m < |Flatten(reports)|
    requires forall j | 0 <= j < n :: Done(objects, namespace, j)
    requires m < 2 * n
    ensures Flatten(reports)[m].kind == PROGRESSING ==> Flatten(reports)[m].status == False
  {
    var i, odd := Halve(m);
    FlatAt(reports, objects, namespace, i, m, odd);
    assert Done(objects, namespace, i);
  }

  lemma PairedIsAvailable(reports: seq<ComponentConditions>, objects: Store, namespace: string, i: nat, m: nat)
    requires InOrder(reports, objects, namespace) && i < |reports| && m == 2 * i
    ensures m < |Flatten(reports)| && Flatten(reports)[m].kind != PROGRESSING
  {
    FlatAt(reports, objects, namespace, i, m, false);
    KindsDiffer();
  }

  lemma BeforeRolling(reports: seq<ComponentConditions>, objects: Store, namespace: string, i: nat, m: nat)
    requires InOrder(reports, objects, namespace) && i < |reports| && m <= 2 * i && m < |Flatten(reports)|
    requires forall j | 0 <= j < i :: Done(objects, namespace, j)
    ensures Flatten(reports)[m].kind == PROGRESSING ==> Flatten(reports)[m].status == False
  {
    if m == 2 * i {
      PairedIsAvailable(reports, objects, namespace, i, m);
    } else {
      EarlierDone(reports, objects, namespace, i, m);
    }
  }

  lemma FirstRolling(reports: seq<ComponentConditions>, objects: Store, namespace: string, i: nat, at: nat)
    requires InOrder(reports, objects, namespace) && i < |reports| && !Done(objects, namespace, i)
    requires (forall j | 0 <= j < i :: Done(objects, namespace, j)) && at == 2 * i + 1
    ensures FirstAt(PROGRESSING, Flatten(reports), False, at)
    ensures Flatten(reports)[at] == ProgressingOf(objects, namespace, i)
  {
    var flat := Flatten(reports);
    FlatAt(reports, objects, namespace, i, at, true);
    forall m | 0 <= m < at && flat[m].kind == PROGRESSING ensures flat[m].status == False {
      BeforeRolling(reports, objects, namespace, i, m);
    }
  }

  lemma NoneRolling(reports: seq<ComponentConditions>, objects: Store, namespace: string)
    requires InOrder(reports, objects, namespace) && forall j | 0 <= j < |reports| :: Done(objects, namespace, j)
    ensures forall m | 0 <= m < |Flatten(reports)| && Flatten(reports)[m].kind == PROGRESSING ::
              Flatten(reports)[m].status == False
  {
    var flat := Flatten(reports);
    FlattenPairs(reports);
    forall m | 0 <= m < |flat| && flat[m].kind == PROGRESSING ensures flat[m].status == False {
      EarlierDone(reports, objects, namespace, |reports|, m);
    }
  }

  // ----- the top-level conditions -----

  /** Every component's Deployment is there. */
  ghost predicate Stocked(objects: Store, namespace: string) {
    forall i: nat | i <= |Bundle.CLOUD_CAPI_ENTITIES| :: WantsOne(objects, namespace, i)
  }

  /** Available speaks for all, or of the first component in bundle order that has no replica. */
  ghost predicate AvailableReads(c: Option<Condition>, objects: Store, namespace: string, generation: nat)
    requires Stocked(objects, namespace)
  {
    && ((forall i: nat | i <= |Bundle.CLOUD_CAPI_ENTITIES| :: Up(objects, namespace, i)) ==>
          Reads(c, True, "DeploymentAvailable", "all components are available", generation))
    && forall i: nat | i <= |Bundle.CLOUD_CAPI_ENTITIES| && !Up(objects, namespace, i)
                       && forall j | 0 <= j < i :: Up(objects, namespace, j) ::
         Reads(c, False, "DeploymentUnavailable", SubjectAt(i) + " Deployment has no available replicas", generation)
  }

  /** Progressing speaks for all, or of the first component that is still rolling out. */
  ghost predicate ProgressingReads(c: Option<Condition>, objects: Store, namespace: string, generation: nat)
    requires Stocked(objects, namespace)
  {
    && ((forall i: nat | i <= |Bundle.CLOUD_CAPI_ENTITIES| :: Done(objects, namespace, i)) ==>
          Reads(c, False, "RolloutComplete", "all components have completed rollout", generation))
    && forall i: nat | i <= |Bundle.CLOUD_CAPI_ENTITIES| && !Done(objects, namespace, i)
                       && forall j | 0 <= j < i :: Done(objects, namespace, j) ::
         Reads(c, True, "RolloutInProgress", SubjectAt(i) + " Deployment rollout has not completed", generation)
  }

  /** What a write leaves of a fresh condition. */
  lemma WrittenReads(cs: seq<Condition>, reported: seq<Condition>, generation: nat, now: Time, c: Condition)
    requires UniqueKinds(reported) && Find(reported, c.kind) == Some(c)
    ensures Reads(Find(SetAll(cs, reported, generation, now), c.kind), c.status, c.reason, c.message, generation)
  {
    FindSetAll(cs, reported, generation, now, c.kind);
  }

  lemma AvailableInWords(c: Option<Condition>, reports: seq<ComponentConditions>, objects: Store, namespace: string,
                         generation: nat)
    requires InOrder(reports, objects, namespace) && Stocked(objects, namespace)
    requires var r := AvailableRollup(Flatten(reports)); Reads(c, r.status, r.reason, r.message, generation)
    ensures AvailableReads(c, objects, namespace, generation)
  {
    RollupShows(AVAILABLE, Flatten(reports), "DeploymentAvailable", "all components are available", True);
    if forall i: nat | i <= |Bundle.CLOUD_CAPI_ENTITIES| :: Up(objects, namespace, i) {
      NoneDown(reports, objects, namespace);
    }
    forall i: nat | i <= |Bundle.CLOUD_CAPI_ENTITIES| && !Up(objects, namespace, i)
                    && forall j | 0 <= j < i :: Up(objects, namespace, j)
      ensures Reads(c, False, "DeploymentUnavailable", SubjectAt(i) + " Deployment has no available replicas",
                    generation)
    {
      FirstDown(reports, objects, namespace, i, 2 * i);
    }
  }

  lemma ProgressingInWords(c: Option<Condition>, reports: seq<ComponentConditions>, objects: Store, namespace: string,
                           generation: nat)
    requires InOrder(reports, objects, namespace) && Stocked(objects, namespace)
    requires var r := ProgressingRollup(Flatten(reports)); Reads(c, r.status, r.reason, r.message, generation)
    ensures ProgressingReads(c, objects, namespace, generation)
  {
    RollupShows(PROGRESSING, Flatten(reports), "RolloutComplete", "all components have completed rollout", False);
    if forall i: nat | i <= |Bundle.CLOUD_CAPI_ENTITIES| :: Done(objects, namespace, i) {
      NoneRolling(reports, objects, namespace);
    }
    forall i: nat | i <= |Bundle.CLOUD_CAPI_ENTITIES| && !Done(objects, namespace, i)
                    && forall j | 0 <= j < i :: Done(objects, namespace, j)
      ensures Reads(c, True, "RolloutInProgress", SubjectAt(i) + " Deployment rollout has not completed", generation)
    {
      FirstRolling(reports, objects, namespace, i, 2 * i + 1);
    }
  }

  /** The two conditions read, word for word, what the store shows. */
  ghost predicate HealthReads(conditions: seq<Condition>, objects: Store, namespace: string, generation: nat) {
    && Stocked(objects, namespace)
    && AvailableReads(Find(conditions, "Available"), objects, namespace, generation)
    && ProgressingReads(Find(conditions, "Progressing"), objects, namespace, generation)
  }

  lemma AggregateReads(s: Status, f: Findings, now: Time, objects: Store, namespace: string)
    requires f.collected && InOrder(f.reports, objects, namespace) && Stocked(objects, namespace)
    ensures HealthReads(Aggregate(s, f, now).conditions, objects, namespace, f.generation)
  {
    var t, cs := TopLevel(f), Aggregate(s, f, now).conditions;
    TopLevelUnique(f);
    StatusRuns.TopLevelFinds(f);
    WrittenReads(s.conditions, t, f.generation, now, AvailableRollup(Flatten(f.reports)));
    WrittenReads(s.conditions, t, f.generation, now, ProgressingRollup(Flatten(f.reports)));
    AvailableInWords(Find(cs, AVAILABLE), f.reports, objects, namespace, f.generation);
    ProgressingInWords(Find(cs, PROGRESSING), f.reports, objects, namespace, f.generation);
  }

  /** After a reconcile that succeeds and whose status is stored, Available and Progressing read, word
      for word, what the stored Deployments show: the verdict for all, or the reason and the message
      of the first component in bundle order that stands against it. */
  lemma HealthInWords(fn: Functions, w: World, given: Inputs, now: Time)
    requires StatusRuns.Lockstep(w.status) && !Body(fn, w, given).findings.failed && ReachesLoop(w, given)
    ensures var v := Reconciled(fn, w, given, now, true);
            HealthReads(v.status.conditions, v.objects, w.config.namespace, given.cr.generation)
            && v.status.observedGeneration == given.cr.generation
  {
    var f, after := Body(fn, w, given).findings, Body(fn, w, given).objects;
    ReportedInOrder(fn, w, given);
    SuccessReports(fn, w, given);
    BodyGeneration(fn, w, given);
    StatusRuns.PublishIsAggregate(w.status, StatusRuns.Round(f, now, true));
    AggregateReads(w.status, f, now, after, w.config.namespace);
  }

  lemma SameReads(a: seq<Condition>, b: seq<Condition>, objects: Store, namespace: string, generation: nat)
    requires HealthReads(a, objects, namespace, generation)
    requires Find(a, AVAILABLE) == Find(b, AVAILABLE) && Find(a, PROGRESSING) == Find(b, PROGRESSING)
    ensures HealthReads(b, objects, namespace, generation)
  {
  }

  lemma StepInWords(fn: Functions, v: World, step: Step)
    requires StatusRuns.Lockstep(v.status) && Publishes(fn, v, step)
    ensures HealthReads(Next(fn, v, step).status.conditions, Next(fn, v, step).objects, v.config.namespace,
                        step.given.cr.generation)
  {
    WiredIsReached(fn, v, step.given);
    HealthInWords(fn, v, step.given, step.now);
  }

  /** At any moment of any run the two conditions still read what the last reconcile that published
      health found, under the generation it found. */
  lemma HealthInWordsInRuns(fn: Functions, w: World, steps: seq<Step>, j: nat, n: nat)
    requires w.status == StatusRuns.INITIAL && GenerationsRise(steps) && j < n <= |steps|
    requires Publishes(fn, Run(fn, w, steps[..j]), steps[j]) && NonePublishes(fn, w, steps, j + 1, n)
    ensures HealthReads(Run(fn, w, steps[..n]).status.conditions, Run(fn, w, steps[..j + 1]).objects,
                        Run(fn, w, steps[..j]).config.namespace, steps[j].given.cr.generation)
  {
    var u := Run(fn, w, steps[..j + 1]);
    LockstepBefore(fn, w, steps, j);
    StepInWords(fn, Run(fn, w, steps[..j]), steps[j]);
    RunNext(fn, w, steps, j);
    HealthKept(fn, w, steps, j + 1, n, AVAILABLE);
    HealthKept(fn, w, steps, j + 1, n, PROGRESSING);
    SameReads(u.status.conditions, Run(fn, w, steps[..n]).status.conditions, u.objects,
      Run(fn, w, steps[..j]).config.namespace, steps[j].given.cr.generation);
  }

  /** The Deployment controller has not seen more than there is. */
  predicate NotAhead(objects: Store, k: Key) {
    k in objects ==> objects[k].status.observedGeneration <= objects[k].generation
  }

  lemma RolledIsNotDone(before: Store, after: Store, namespace: string, i: nat, digest: PodTemplate -> string)
    requires i <= |Bundle.CLOUD_CAPI_ENTITIES| && WantsOne(after, namespace, i)
    requires NotAhead(before, DeploymentAt(namespace, i)) && Raises(before, after, DeploymentAt(namespace, i))
    requires Rollout(before, after, DeploymentAt(namespace, i), digest).Some?
    ensures !Done(after, namespace, i)
  {
  }

  lemma SomeRolling(c: Option<Condition>, objects: Store, namespace: string, generation: nat, i: nat)
    requires Stocked(objects, namespace) && ProgressingReads(c, objects, namespace, generation)
    requires i <= |Bundle.CLOUD_CAPI_ENTITIES| && !Done(objects, namespace, i)
    ensures c.Some? && c.value.status == True
    decreases i
  {
    if j: nat :| j < i && !Done(objects, namespace, j) {
      SomeRolling(c, objects, namespace, generation, j);
    }
  }

  /** A reconcile that replaces the pods of any component says so itself: with its status stored,
      Progressing is True, before the Deployment controller has done anything. */
  lemma RolloutIsProgressing(fn: Functions, w: World, given: Inputs, now: Time, i: nat)
    requires StatusRuns.Lockstep(w.status) && !Body(fn, w, given).findings.failed && ReachesLoop(w, given)
    requires i <= |Bundle.CLOUD_CAPI_ENTITIES| && NotAhead(w.objects, DeploymentAt(w.config.namespace, i))
    requires Rollout(w.objects, Reconciled(fn, w, given, now, true).objects, DeploymentAt(w.config.namespace, i),
                     fn.digest).Some?
    ensures ConditionIs(Reconciled(fn, w, given, now, true).status, "Progressing", True)
  {
    var v := Reconciled(fn, w, given, now, true);
    HealthInWords(fn, w, given, now);
    BodyRaises(fn, w, given, DeploymentAt(w.config.namespace, i));
    RolledIsNotDone(w.objects, v.objects, w.config.namespace, i, fn.digest);
    SomeRolling(Find(v.status.conditions, "Progressing"), v.objects, w.config.namespace, given.cr.generation, i);
  }

  // ----- the entries of the components -----

  /** The entry of component `i` reads what its own Deployment shows. */
  ghost predicate EntryReads(entries: seq<ComponentConditions>, objects: Store, namespace: string, i: nat,
                             generation: nat)
    requires i <= |Bundle.CLOUD_CAPI_ENTITIES| && WantsOne(objects, namespace, i)
  {
    var a, p := AvailableOf(objects, namespace, i), ProgressingOf(objects, namespace, i);
    && Reads(StatusRuns.Reported(entries, NameAt(i), "Available"), a.status, a.reason, a.message, generation)
    && Reads(StatusRuns.Reported(entries, NameAt(i), "Progressing"), p.status, p.reason, p.message, generation)
  }

  lemma ReportFound(reports: seq<ComponentConditions>, i: nat)
    requires i < |reports| && DistinctKeys(reports, ByName())
    ensures FindEntry(reports, reports[i].name) == Some(reports[i])
  {
    var e := FindEntry(reports, reports[i].name).value;
    var j :| 0 <= j < |reports| && reports[j] == e;
    assert i == j;
  }

  lemma PairReads(prev: seq<Condition>, a: Condition, p: Condition, generation: nat, now: Time)
    requires a.kind == AVAILABLE && p.kind == PROGRESSING
    ensures Reads(Find(Merge(prev, [a, p], generation, now), AVAILABLE), a.status, a.reason, a.message, generation)
    ensures Reads(Find(Merge(prev, [a, p], generation, now), PROGRESSING), p.status, p.reason, p.message, generation)
  {
    KindsDiffer();
    var seeded := Seed(prev, Kinds([a, p]));
    assert [a, p][1..] == [p];
    WrittenReads(seeded, [a, p], generation, now, a);
    WrittenReads(seeded, [a, p], generation, now, p);
  }

  lemma EntryMerged(s: Status, f: Findings, now: Time, i: nat)
    requires f.collected && DistinctKeys(f.reports, ByName()) && i < |f.reports|
    ensures var r := f.reports[i];
            Published(Aggregate(s, f, now).components, r.name) ==
            Merge(Published(s.components, r.name), r.conditions, f.generation, now)
  {
    var r := f.reports[i];
    StatusRuns.FindEntries(s.components, SortBy(f.reports, ByName()), f.generation, now, r.name);
    StatusRuns.FindEntrySorted(f.reports, r.name);
    ReportFound(f.reports, i);
  }

  lemma AggregateEntry(s: Status, f: Findings, now: Time, objects: Store, namespace: string, i: nat)
    requires f.collected && InOrder(f.reports, objects, namespace) && DistinctKeys(f.reports, ByName())
    requires i <= |Bundle.CLOUD_CAPI_ENTITIES|
    ensures WantsOne(objects, namespace, i)
    ensures EntryReads(Aggregate(s, f, now).components, objects, namespace, i, f.generation)
  {
    var a, p := AvailableOf(objects, namespace, i), ProgressingOf(objects, namespace, i);
    assert f.reports[i] == ComponentConditions(NameAt(i), [a, p]);
    EntryMerged(s, f, now, i);
    PairReads(Published(s.components, NameAt(i)), a, p, f.generation, now);
  }

  /** After such a reconcile the entry of every component reads what its own Deployment shows. */
  lemma ComponentsInWords(fn: Functions, w: World, given: Inputs, now: Time, i: nat)
    requires StatusRuns.Lockstep(w.status) && !Body(fn, w, given).findings.failed && ReachesLoop(w, given)
    requires i <= |Bundle.CLOUD_CAPI_ENTITIES|
    ensures var v := Reconciled(fn, w, given, now, true);
            WantsOne(v.objects, w.config.namespace, i)
            && EntryReads(v.status.components, v.objects, w.config.namespace, i, given.cr.generation)
  {
    var f, after := Body(fn, w, given).findings, Body(fn, w, given).objects;
    ReportedInOrder(fn, w, given);
    SuccessReports(fn, w, given);
    BodyGeneration(fn, w, given);
    BodyReportsGood(fn, w, given);
    StatusRuns.PublishIsAggregate(w.status, StatusRuns.Round(f, now, true));
    AggregateEntry(w.status, f, now, after, w.config.namespace, i);
  }

  // ----- Degraded -----

  /** Degraded names the missing Secrets first, else the failure, else nothing. */
  ghost predicate DegradedReads(c: Option<Condition>, missing: seq<string>, failed: bool, generation: nat) {
    if missing != [] then
      Reads(c, True, "ReferencedSecretMissing",
            "referenced secret(s) missing in the operator's namespace: " + Join(missing, ", "), generation)
    else if failed then
      Reads(c, True, "ReconcileError", "the last reconcile failed; see the operator's logs for details", generation)
    else Reads(c, False, "AsExpected", "no failure detected", generation)
  }

  lemma AggregateDegraded(s: Status, f: Findings, now: Time)
    ensures DegradedReads(Find(Aggregate(s, f, now).conditions, "Degraded"), f.missing, f.failed, f.generation)
  {
    TopLevelUnique(f);
    StatusRuns.TopLevelFinds(f);
    WrittenReads(s.conditions, TopLevel(f), f.generation, now, DegradedCondition(f.missing, f.failed));
  }

  /** However a reconcile ended, once its status is stored Degraded reads what it found. */
  lemma DegradedInWords(fn: Functions, w: World, given: Inputs, now: Time)
    requires StatusRuns.Lockstep(w.status)
    ensures DegradedReads(Find(Reconciled(fn, w, given, now, true).status.conditions, "Degraded"),
                          MissingSecrets.Published(fn, w, given), Body(fn, w, given).findings.failed,
                          given.cr.generation)
  {
    var f := Body(fn, w, given).findings;
    BodyGeneration(fn, w, given);
    StatusRuns.PublishIsAggregate(w.status, StatusRuns.Round(f, now, true));
    AggregateDegraded(w.status, f, now);
  }
}
