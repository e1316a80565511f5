/** What the published status says about the cluster after a successful reconcile. */
module PublishedStatus {
  import opened Strings
  import opened Sorting
  import opened Conditions
  import opened Status
  import opened Operands
  import opened Rollouts
  import opened ReconcileLoop
  import opened Controller
  import opened Convergence
  import Bundle
  import Health
  import MissingSecrets
  import StatusRuns

  /** The Deployment of every component has as many available replicas as it wants. */
  predicate AllAvailable(objects: Store, plans: seq<Plan>) {
    forall i | 0 <= i < |plans| ::
      plans[i].deployment in objects && Health.HasReplicas(objects[plans[i].deployment])
  }

  /** The Deployment of every component has finished rolling out. */
  predicate AllSettled(objects: Store, plans: seq<Plan>) {
    forall i | 0 <= i < |plans| ::
      plans[i].deployment in objects && Health.Settled(objects[plans[i].deployment])
  }

  predicate ConditionIs(s: Status, kind: string, status: ConditionStatus) {
    Find(s.conditions, kind).Some? && Find(s.conditions, kind).value.status == status
  }

  /** The conditions reported for one component, as the roll-up reads them. */
  lemma ReportMeans(objects: Store, plan: Plan)
    ensures (forall d | d in ReportFor(objects, plan).conditions && d.kind == AVAILABLE :: d.status == True) <==>
            plan.deployment in objects && Health.HasReplicas(objects[plan.deployment])
    ensures (forall d | d in ReportFor(objects, plan).conditions && d.kind == PROGRESSING :: d.status == False) <==>
            plan.deployment in objects && Health.Settled(objects[plan.deployment])
  {
    var dep := if plan.deployment in objects then Some(objects[plan.deployment]) else None;
    var r := Health.Report(plan.subject, dep);
    KindsDiffer();
    Health.RolledOutImpliesAvailable(plan.subject, dep);
    assert r[0] in r && r[1] in r;
    assert forall d | d in r :: d == r[0] || d == r[1];
  }

  lemma ReportsMean(objects: Store, plans: seq<Plan>, kind: string, expected: ConditionStatus)
    ensures (forall d | d in Flatten(ReportsFor(objects, plans)) && d.kind == kind :: d.status == expected) <==>
            forall i, d | 0 <= i < |plans| && d in ReportFor(objects, plans[i]).conditions && d.kind == kind ::
              d.status == expected
  {
    var reports := ReportsFor(objects, plans);
    forall d
      ensures d in Flatten(reports) <==> exists i :: 0 <= i < |plans| && d in ReportFor(objects, plans[i]).conditions
    {
      StatusRuns.FlattenMembers(reports, d);
      if exists r :: r in reports && d in r.conditions {
        var r :| r in reports && d in r.conditions;
        var i :| 0 <= i < |reports| && reports[i] == r;
        assert d in ReportFor(objects, plans[i]).conditions;
      }
      if exists i :: 0 <= i < |plans| && d in ReportFor(objects, plans[i]).conditions {
        var i :| 0 <= i < |plans| && d in ReportFor(objects, plans[i]).conditions;
        assert reports[i] in reports;
      }
    }
  }

  /** The roll-ups of the reports of a store. */
  lemma RollupsMean(objects: Store, plans: seq<Plan>)
    ensures AvailableRollup(Flatten(ReportsFor(objects, plans))).status == True <==> AllAvailable(objects, plans)
    ensures ProgressingRollup(Flatten(ReportsFor(objects, plans))).status == False <==> AllSettled(objects, plans)
  {
    ReportsMean(objects, plans, AVAILABLE, True);
    ReportsMean(objects, plans, PROGRESSING, False);
    forall i | 0 <= i < |plans| {
      ReportMeans(objects, plans[i]);
    }
  }

  lemma FreshStatus(cs: seq<Condition>, reported: seq<Condition>, generation: nat, now: Time, c: Condition)
    requires UniqueKinds(reported) && Find(reported, c.kind) == Some(c)
    ensures var written := Find(SetAll(cs, reported, generation, now), c.kind);
            written.Some? && written.value.status == c.status
  {
    FindSetAll(cs, reported, generation, now, c.kind);
  }

  /** A status written over an old one shows the fresh conditions. */
  lemma WrittenMeans(s: Status, f: Findings, now: Time)
    requires f.collected
    ensures var after := Aggregate(s, f, now);
            && (ConditionIs(after, AVAILABLE, True) <==> AvailableRollup(Flatten(f.reports)).status == True)
            && (ConditionIs(after, PROGRESSING, False) <==> ProgressingRollup(Flatten(f.reports)).status == False)
            && (ConditionIs(after, DEGRADED, False) <==> f.missing == [] && !f.failed)
  {
    var t := TopLevel(f);
    TopLevelUnique(f);
    StatusRuns.TopLevelFinds(f);
    FreshStatus(s.conditions, t, f.generation, now, AvailableRollup(Flatten(f.reports)));
    FreshStatus(s.conditions, t, f.generation, now, ProgressingRollup(Flatten(f.reports)));
    FreshStatus(s.conditions, t, f.generation, now, DegradedCondition(f.missing, f.failed));
  }

  /** The promise of the status. After a reconcile that succeeds and whose status write gets
      through: Available is True exactly when the Deployment of every component, as stored at the
      end, has the replicas it wants available; Progressing is False exactly when every one has
      finished rolling out; Degraded is False exactly when no referenced Secret is missing. */
  lemma StatusMeansHealth(fn: Functions, w: World, given: Inputs, now: Time)
    requires StatusRuns.Lockstep(w.status) && !Body(fn, w, given).findings.failed
    ensures ReachesLoop(w, given)
    ensures var v := Reconciled(fn, w, given, now, true);
            var plans := Plans(fn, w.config, w.secrets, given.cr.spec, JWKSURL(w, given).value);
            var cs := Bundle.Resolved(given.cr.spec.bundle, w.config).value;
            && (ConditionIs(v.status, AVAILABLE, True) <==> AllAvailable(v.objects, plans))
            && (ConditionIs(v.status, PROGRESSING, False) <==> AllSettled(v.objects, plans))
            && (ConditionIs(v.status, DEGRADED, False) <==>
                forall role :: !RoleMissing(cs, w.secrets, given.cr.spec, role))
  {
    SuccessReports(fn, w, given);
    SuccessMissing(fn, w, given);
    var f := Body(fn, w, given).findings;
    StatusRuns.PublishIsAggregate(w.status, StatusRuns.Round(f, now, true));
    WrittenMeans(w.status, f, now);
    RollupsMean(Body(fn, w, given).objects,
      Plans(fn, w.config, w.secrets, given.cr.spec, JWKSURL(w, given).value));
  }

  lemma SuccessReports(fn: Functions, w: World, given: Inputs)
    requires !Body(fn, w, given).findings.failed
    ensures ReachesLoop(w, given) && Body(fn, w, given).findings.collected
    ensures Body(fn, w, given).findings.reports ==
            ReportsFor(Body(fn, w, given).objects,
                       Plans(fn, w.config, w.secrets, given.cr.spec, JWKSURL(w, given).value))
  {
    FailsIff(fn, w, given);
    BodyIsLoop(fn, w, given);
    var plans := Plans(fn, w.config, w.secrets, given.cr.spec, JWKSURL(w, given).value);
    ComponentsSound(fn, w.config, given.cr.spec, JWKSURL(w, given).value, w.secrets);
    LoopReports(Progress(w.objects, w.counted, [], false), plans, ContextFor(fn, given));
  }

  lemma SuccessMissing(fn: Functions, w: World, given: Inputs)
    requires ReachesLoop(w, given)
    ensures Body(fn, w, given).findings.missing == [] <==>
            forall role ::
              !RoleMissing(Bundle.Resolved(given.cr.spec.bundle, w.config).value, w.secrets, given.cr.spec, role)
  {
    var cs := Bundle.Resolved(given.cr.spec.bundle, w.config).value;
    GatheredIff(cs, w.secrets, given);
    MissingSecrets.MissingIsExact(fn, w, given);
    var missing := MissingSecrets.Published(fn, w, given);
    assert missing != [] ==> missing[0] in missing;
  }
}
