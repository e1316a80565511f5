/** What the published status says about the cluster at the end of any run. */
module PublishedRuns {
  import opened Strings
  import opened Conditions
  import opened Status
  import opened Operands
  import opened ReconcileLoop
  import opened Controller
  import opened Convergence
  import opened ControllerRuns
  import opened PublishedStatus
  import Bundle
  import StatusRuns

  /** The step collects the health of every component and its status write gets through. */
  ghost predicate Publishes(fn: Functions, v: World, step: Step) {
    step.Reconcile? && step.stored && !Body(fn, v, step.given).findings.failed
  }

  predicate IsHealth(kind: string) {
    kind == AVAILABLE || kind == PROGRESSING
  }

  /** A round without health leaves both conditions as they are. */
  lemma RoundKeepsHealth(s: Status, r: StatusRuns.Round, kind: string)
    requires IsHealth(kind) && !(r.stored && r.findings.collected)
    ensures Find(StatusRuns.Publish(s, r).conditions, kind) == Find(s.conditions, kind)
  {
    if r.stored {
      TopLevelUnique(r.findings);
      StatusRuns.TopLevelFinds(r.findings);
      FindSetAll(s.conditions, TopLevel(r.findings), r.findings.generation, r.now, kind);
    }
  }

  lemma StepKeepsHealth(fn: Functions, v: World, step: Step, kind: string)
    requires IsHealth(kind) && !Publishes(fn, v, step)
    ensures Find(Next(fn, v, step).status.conditions, kind) == Find(v.status.conditions, kind)
  {
    NextStatus(fn, v, step);
    if step.Reconcile? {
      FailsIff(fn, v, step.given);
      RoundKeepsHealth(v.status, StatusRuns.Round(Body(fn, v, step.given).findings, step.now, step.stored), kind);
    }
  }

  /** No step from `m` to `n` publishes health. */
  ghost predicate NonePublishes(fn: Functions, w: World, steps: seq<Step>, m: nat, n: nat)
    requires n <= |steps|
  {
    forall x: nat | m <= x < n :: !Publishes(fn, Run(fn, w, steps[..x]), steps[x])
  }

  lemma {:induction false} HealthKept(fn: Functions, w: World, steps: seq<Step>, m: nat, n: nat, kind: string)
    requires m <= n <= |steps| && IsHealth(kind) && NonePublishes(fn, w, steps, m, n)
    ensures Find(Run(fn, w, steps[..n]).status.conditions, kind) ==
            Find(Run(fn, w, steps[..m]).status.conditions, kind)
  {
    if m == n {
    } else {
      var x := n - 1;
      HealthKept(fn, w, steps, m, x, kind);
      RunNext(fn, w, steps, x);
      StepKeepsHealth(fn, Run(fn, w, steps[..x]), steps[x], kind);
    }
  }

  lemma PrefixRises(steps: seq<Step>, n: nat)
    requires GenerationsRise(steps) && n <= |steps|
    ensures GenerationsRise(steps[..n])
  {
  }

  /** Status `s` tells the health of the Deployments that a reconcile of `given` left in `after`. */
  ghost predicate TellsHealth(fn: Functions, v: World, given: Inputs, after: Store, s: Status) {
    ReachesLoop(v, given) &&
    var plans := Plans(fn, v.config, v.secrets, given.cr.spec, JWKSURL(v, given).value);
    && (ConditionIs(s, AVAILABLE, True) <==> AllAvailable(after, plans))
    && (ConditionIs(s, PROGRESSING, False) <==> AllSettled(after, plans))
  }

  lemma PublishedTellsHealth(fn: Functions, v: World, step: Step)
    requires StatusRuns.Lockstep(v.status) && Publishes(fn, v, step)
    ensures TellsHealth(fn, v, step.given, Next(fn, v, step).objects, Next(fn, v, step).status)
  {
    StatusMeansHealth(fn, v, step.given, step.now);
  }

  lemma SameVerdicts(fn: Functions, v: World, given: Inputs, after: Store, s: Status, t: Status)
    requires TellsHealth(fn, v, given, after, s)
    requires ConditionIs(t, AVAILABLE, True) <==> ConditionIs(s, AVAILABLE, True)
    requires ConditionIs(t, PROGRESSING, False) <==> ConditionIs(s, PROGRESSING, False)
    ensures TellsHealth(fn, v, given, after, t)
  {
  }

  lemma LockstepBefore(fn: Functions, w: World, steps: seq<Step>, j: nat)
    requires w.status == StatusRuns.INITIAL && GenerationsRise(steps) && j <= |steps|
    ensures StatusRuns.Lockstep(Run(fn, w, steps[..j]).status)
  {
    PrefixRises(steps, j);
    StatusSafety(fn, w, steps[..j]);
  }

  lemma HealthAt(fn: Functions, w: World, steps: seq<Step>, j: nat)
    requires w.status == StatusRuns.INITIAL && GenerationsRise(steps) && j < |steps|
    requires Publishes(fn, Run(fn, w, steps[..j]), steps[j])
    ensures TellsHealth(fn, Run(fn, w, steps[..j]), steps[j].given, Run(fn, w, steps[..j + 1]).objects,
                        Run(fn, w, steps[..j + 1]).status)
  {
    LockstepBefore(fn, w, steps, j);
    PublishedTellsHealth(fn, Run(fn, w, steps[..j]), steps[j]);
    RunNext(fn, w, steps, j);
  }

  /** The status at any moment of any run speaks of the last reconcile that published health:
      Available is True exactly when every component's Deployment, as that reconcile left it, has the
      replicas it wants available, and Progressing is False exactly when every one has finished
      rolling out. */
  lemma HealthInRuns(fn: Functions, w: World, steps: seq<Step>, j: nat, n: nat)
    requires w.status == StatusRuns.INITIAL && GenerationsRise(steps) && j < n <= |steps|
    requires Publishes(fn, Run(fn, w, steps[..j]), steps[j]) && NonePublishes(fn, w, steps, j + 1, n)
    ensures TellsHealth(fn, Run(fn, w, steps[..j]), steps[j].given, Run(fn, w, steps[..j + 1]).objects,
                        Run(fn, w, steps[..n]).status)
  {
    var u := Run(fn, w, steps[..j + 1]);
    HealthAt(fn, w, steps, j);
    HealthKept(fn, w, steps, j + 1, n, AVAILABLE);
    HealthKept(fn, w, steps, j + 1, n, PROGRESSING);
    SameVerdicts(fn, Run(fn, w, steps[..j]), steps[j].given, u.objects, u.status, Run(fn, w, steps[..n]).status);
  }

  /** Before any reconcile published health, neither condition claims anything. */
  lemma NothingClaimedBefore(fn: Functions, w: World, steps: seq<Step>, n: nat, kind: string, status: ConditionStatus)
    requires w.status == StatusRuns.INITIAL && n <= |steps| && IsHealth(kind) && NonePublishes(fn, w, steps, 0, n)
    ensures !ConditionIs(Run(fn, w, steps[..n]).status, kind, status)
  {
    HealthKept(fn, w, steps, 0, n, kind);
  }

  // ----- Degraded -----

  lemma StepKeepsStatus(fn: Functions, v: World, step: Step)
    requires !(step.Reconcile? && step.stored)
    ensures Next(fn, v, step).status == v.status
  {
    NextStatus(fn, v, step);
  }

  lemma {:induction false} StatusKept(fn: Functions, w: World, steps: seq<Step>, m: nat, n: nat)
    requires m <= n <= |steps| && forall x | m <= x < n :: !(steps[x].Reconcile? && steps[x].stored)
    ensures Run(fn, w, steps[..n]).status == Run(fn, w, steps[..m]).status
  {
    if m == n {
    } else {
      var x := n - 1;
      StatusKept(fn, w, steps, m, x);
      RunNext(fn, w, steps, x);
      StepKeepsStatus(fn, Run(fn, w, steps[..x]), steps[x]);
    }
  }

  lemma WrittenDegraded(s: Status, f: Findings, now: Time)
    ensures ConditionIs(Aggregate(s, f, now), DEGRADED, False) <==> f.missing == [] && !f.failed
  {
    TopLevelUnique(f);
    StatusRuns.TopLevelFinds(f);
    FreshStatus(s.conditions, TopLevel(f), f.generation, now, DegradedCondition(f.missing, f.failed));
  }

  /** The reconcile succeeds and finds every referenced Secret. */
  ghost predicate NothingWrong(fn: Functions, v: World, given: Inputs) {
    var r := Bundle.Resolved(given.cr.spec.bundle, v.config);
    && !Body(fn, v, given).findings.failed && r.Ok?
    && forall role :: !RoleMissing(r.value, v.secrets, given.cr.spec, role)
  }

  lemma NothingWrongIff(fn: Functions, v: World, given: Inputs)
    ensures NothingWrong(fn, v, given) <==>
            Body(fn, v, given).findings.missing == [] && !Body(fn, v, given).findings.failed
  {
    if !Body(fn, v, given).findings.failed {
      SuccessReports(fn, v, given);
      SuccessMissing(fn, v, given);
    }
  }

  lemma StoredDegraded(fn: Functions, v: World, step: Step)
    requires StatusRuns.Lockstep(v.status) && step.Reconcile? && step.stored
    ensures ConditionIs(Next(fn, v, step).status, DEGRADED, False) <==> NothingWrong(fn, v, step.given)
  {
    var f := Body(fn, v, step.given).findings;
    NextStatus(fn, v, step);
    StatusRuns.PublishIsAggregate(v.status, StatusRuns.Round(f, step.now, true));
    WrittenDegraded(v.status, f, step.now);
    NothingWrongIff(fn, v, step.given);
  }

  /** Degraded is False at any moment of a run exactly when the last reconcile whose status was
      stored succeeded and found every referenced Secret. */
  lemma DegradedInRuns(fn: Functions, w: World, steps: seq<Step>, j: nat, n: nat)
    requires w.status == StatusRuns.INITIAL && GenerationsRise(steps) && j < n <= |steps|
    requires steps[j].Reconcile? && steps[j].stored
    requires forall x | j < x < n :: !(steps[x].Reconcile? && steps[x].stored)
    ensures ConditionIs(Run(fn, w, steps[..n]).status, DEGRADED, False) <==>
            NothingWrong(fn, Run(fn, w, steps[..j]), steps[j].given)
  {
    LockstepBefore(fn, w, steps, j);
    RunNext(fn, w, steps, j);
    StoredDegraded(fn, Run(fn, w, steps[..j]), steps[j]);
    StatusKept(fn, w, steps, j + 1, n);
  }
}
