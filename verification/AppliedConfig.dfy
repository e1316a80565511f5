/** The applied-config metric: what its label says over a run, and exactly when it changes. */
module AppliedConfig {
  import opened Strings
  import opened Operands
  import opened Controller
  import opened Convergence
  import opened ControllerRuns
  import Bundle
  import Stamping

  /** The label a successful reconcile publishes. */
  ghost function LabelOf(fn: Functions, v: World, given: Inputs): string
    requires ReachesLoop(v, given)
  {
    ConfigDigest(fn, Components(v.config, given.cr.spec, JWKSURL(v, given).value), given.cr.spec, v.secrets)
  }

  lemma BodyApplies(fn: Functions, v: World, given: Inputs)
    ensures Body(fn, v, given).findings.failed ==> Body(fn, v, given).applied == v.applied
    ensures !Body(fn, v, given).findings.failed ==>
              ReachesLoop(v, given) && Body(fn, v, given).applied == Some(LabelOf(fn, v, given))
  {
    if ReachesLoop(v, given) {
      BodyIsLoop(fn, v, given);
    } else {
      AbortsUnchanged(fn, v, given);
    }
  }

  // ----- over a run -----

  ghost predicate Succeeds(fn: Functions, v: World, step: Step) {
    step.Reconcile? && !Body(fn, v, step.given).findings.failed
  }

  lemma StepKeepsLabel(fn: Functions, v: World, step: Step)
    requires !Succeeds(fn, v, step) && !step.Restart?
    ensures Next(fn, v, step).applied == v.applied
  {
    if step.Reconcile? {
      BodyApplies(fn, v, step.given);
    }
  }

  /** From `m` to `n` no reconcile succeeds and the process keeps running. */
  ghost predicate NoneSucceeds(fn: Functions, w: World, steps: seq<Step>, m: nat, n: nat)
    requires n <= |steps|
  {
    forall x: nat | m <= x < n :: !Succeeds(fn, Run(fn, w, steps[..x]), steps[x]) && !steps[x].Restart?
  }

  lemma {:induction false} LabelKept(fn: Functions, w: World, steps: seq<Step>, m: nat, n: nat)
    requires m <= n <= |steps| && NoneSucceeds(fn, w, steps, m, n)
    ensures Run(fn, w, steps[..n]).applied == Run(fn, w, steps[..m]).applied
  {
    if m == n {
    } else {
      var x := n - 1;
      LabelKept(fn, w, steps, m, x);
      RunNext(fn, w, steps, x);
      StepKeepsLabel(fn, Run(fn, w, steps[..x]), steps[x]);
    }
  }

  /** At any moment of a run the metric carries the digest of the last successful reconcile since the
      process started; aborted reconciles leave it alone. */
  lemma LabelInRuns(fn: Functions, w: World, steps: seq<Step>, j: nat, n: nat)
    requires j < n <= |steps| && Succeeds(fn, Run(fn, w, steps[..j]), steps[j]) && NoneSucceeds(fn, w, steps, j + 1, n)
    ensures ReachesLoop(Run(fn, w, steps[..j]), steps[j].given)
    ensures Run(fn, w, steps[..n]).applied == Some(LabelOf(fn, Run(fn, w, steps[..j]), steps[j].given))
  {
    RunNext(fn, w, steps, j);
    BodyApplies(fn, Run(fn, w, steps[..j]), steps[j].given);
    LabelKept(fn, w, steps, j + 1, n);
  }

  /** After a start, and until a reconcile succeeds, it has no label. */
  lemma NoLabelAfterRestart(fn: Functions, w: World, steps: seq<Step>, j: nat, n: nat)
    requires j < n <= |steps| && steps[j].Restart? && NoneSucceeds(fn, w, steps, j + 1, n)
    ensures Run(fn, w, steps[..n]).applied == None
  {
    RunNext(fn, w, steps, j);
    LabelKept(fn, w, steps, j + 1, n);
  }

  // ----- when it changes -----

  /** Marshalling and hashing without collisions, and no NUL in what they write. */
  ghost predicate CollisionFree(fn: Functions) {
    && Stamping.PlainText(fn.marshal) && Injective(fn.sha) && Injective(fn.summary)
    && (forall x, y | fn.json(x) == fn.json(y) :: x == y)
    && (forall x :: NulFree(fn.json(x))) && (forall x :: NulFree(fn.sha(x)))
  }

  ghost predicate BothSucceed(fn: Functions, w: World, first: Step, steps: seq<Step>, second: Step) {
    && Succeeds(fn, w, first) && ReachesLoop(w, first.given)
    && var v := Run(fn, w, [first] + steps);
       v.config == w.config && Succeeds(fn, v, second) && ReachesLoop(v, second.given)
  }

  /** What component `i` is rolled for changed between the two reconciles. */
  ghost predicate ChangedAt(fn: Functions, w: World, first: Step, steps: seq<Step>, second: Step, i: nat) {
    TwoReconciles(fn, w, first, steps, second) && i <= |Bundle.CLOUD_CAPI_ENTITIES| &&
    var spec, v := first.given.cr.spec, Run(fn, w, [first] + steps);
    var c := Components(w.config, spec, JWKSURL(w, first.given).value)[i];
    var d := Components(w.config, spec, JWKSURL(v, second.given).value)[i];
    && Bundle.Render(fn.marshal, c, spec).Ok? && Bundle.Render(fn.marshal, d, spec).Ok?
    && InputsChanged(fn, w, [first] + steps, c, d, spec)
  }

  lemma HashIs(fn: Functions, c: Bundle.Component, spec: Spec, secrets: map<string, string>)
    requires Bundle.Render(fn.marshal, c, spec).Ok?
    ensures HashFor(fn, c, spec, secrets) == fn.sha(Stamping.Input(fn.marshal, c, spec, secrets))
  {
  }

  /** One component: its rollout hash changes exactly when what it is rolled for does. */
  lemma HashChangesIff(fn: Functions, w: World, first: Step, steps: seq<Step>, second: Step, i: nat)
    requires CollisionFree(fn) && Issued(w) && TwoReconciles(fn, w, first, steps, second)
    requires i <= |Bundle.CLOUD_CAPI_ENTITIES|
    ensures var spec, v := first.given.cr.spec, Run(fn, w, [first] + steps);
            HashFor(fn, Components(w.config, spec, JWKSURL(w, first.given).value)[i], spec, w.secrets) !=
            HashFor(fn, Components(w.config, spec, JWKSURL(v, second.given).value)[i], spec, v.secrets) <==>
            ChangedAt(fn, w, first, steps, second, i)
  {
    var spec, v := first.given.cr.spec, Run(fn, w, [first] + steps);
    var url, other := JWKSURL(w, first.given).value, JWKSURL(v, second.given).value;
    var c, d := Components(w.config, spec, url)[i], Components(w.config, spec, other)[i];
    SameTier(w.config, spec, url, other, i);
    StoredTemplate(fn, w, first.given, i);
    StoredTemplate(fn, v, second.given, i);
    HashIs(fn, c, spec, w.secrets);
    HashIs(fn, d, spec, v.secrets);
    RotationRolls(fn, w, [first] + steps, c, d, spec);
  }

  /** The rollout hashes a reconcile stamps, in the order of the components. */
  ghost function StampedHashes(fn: Functions, v: World, given: Inputs): seq<string>
    requires ReachesLoop(v, given)
  {
    HashesFor(fn, Components(v.config, given.cr.spec, JWKSURL(v, given).value), given.cr.spec, v.secrets)
  }

  lemma HashAt(fn: Functions, w: World, first: Step, steps: seq<Step>, second: Step, i: nat)
    requires CollisionFree(fn) && Issued(w) && TwoReconciles(fn, w, first, steps, second)
    requires i <= |Bundle.CLOUD_CAPI_ENTITIES|
    ensures var x, y := StampedHashes(fn, w, first.given),
                        StampedHashes(fn, Run(fn, w, [first] + steps), second.given);
            && |x| == |y| == 1 + |Bundle.CLOUD_CAPI_ENTITIES|
            && (x[i] == y[i] <==> !ChangedAt(fn, w, first, steps, second, i))
  {
    TierSize(w.config, first.given.cr.spec, JWKSURL(w, first.given).value);
    TierSize(w.config, first.given.cr.spec, JWKSURL(Run(fn, w, [first] + steps), second.given).value);
    HashChangesIff(fn, w, first, steps, second, i);
  }

  lemma AllAgree(x: seq<string>, y: seq<string>, n: nat, changed: nat -> bool)
    requires |x| == |y| == n && forall i: nat | i < n :: x[i] == y[i] <==> !changed(i)
    ensures x == y <==> forall i: nat | i < n :: !changed(i)
  {
  }

  ghost function Changes(fn: Functions, w: World, first: Step, steps: seq<Step>, second: Step): nat -> bool {
    (i: nat) => ChangedAt(fn, w, first, steps, second, i)
  }

  lemma HashesChangeIff(fn: Functions, w: World, first: Step, steps: seq<Step>, second: Step)
    requires CollisionFree(fn) && Issued(w) && TwoReconciles(fn, w, first, steps, second)
    ensures StampedHashes(fn, w, first.given) == StampedHashes(fn, Run(fn, w, [first] + steps), second.given) <==>
            forall i: nat | i < 1 + |Bundle.CLOUD_CAPI_ENTITIES| :: !Changes(fn, w, first, steps, second)(i)
  {
    var x, y := StampedHashes(fn, w, first.given), StampedHashes(fn, Run(fn, w, [first] + steps), second.given);
    var changed := Changes(fn, w, first, steps, second);
    HashAt(fn, w, first, steps, second, 0);
    forall i: nat | i < |x| ensures x[i] == y[i] <==> !changed(i) {
      HashAt(fn, w, first, steps, second, i);
    }
    AllAgree(x, y, |x|, changed);
  }

  lemma TierSize(config: Bundle.Config, spec: Spec, url: string)
    requires Bundle.Resolved(spec.bundle, config).Ok?
    ensures |Components(config, spec, url)| == 1 + |Bundle.CLOUD_CAPI_ENTITIES|
  {
  }

  lemma DigestsAgreeIff(fn: Functions, cs: seq<Bundle.Component>, spec: Spec, s1: map<string, string>,
                        ds: seq<Bundle.Component>, other: Spec, s2: map<string, string>)
    requires CollisionFree(fn)
    ensures ConfigDigest(fn, cs, spec, s1) == ConfigDigest(fn, ds, other, s2) <==>
            spec == other && HashesFor(fn, cs, spec, s1) == HashesFor(fn, ds, other, s2)
  {
    var x, y := HashesFor(fn, cs, spec, s1), HashesFor(fn, ds, other, s2);
    forall h | h in x || h in y ensures NulFree(h) {
    }
    Stamping.HashConfigInjective(fn.json(spec), x, fn.json(other), y);
  }

  /** What the metric is for: between two successful reconciles of one configuration in a run, its
      label stays the same exactly when the spec is the same and no component got other mounted data
      or a rotated Secret, whichever way that came about. */
  lemma LabelChangesIff(fn: Functions, w: World, first: Step, steps: seq<Step>, second: Step)
    requires CollisionFree(fn) && Issued(w) && BothSucceed(fn, w, first, steps, second)
    ensures Next(fn, w, first).applied == Next(fn, Run(fn, w, [first] + steps), second).applied <==>
            && first.given.cr.spec == second.given.cr.spec
            && forall i: nat | i <= |Bundle.CLOUD_CAPI_ENTITIES| :: !ChangedAt(fn, w, first, steps, second, i)
  {
    var v := Run(fn, w, [first] + steps);
    BodyApplies(fn, w, first.given);
    BodyApplies(fn, v, second.given);
    DigestsAgreeIff(fn, Components(w.config, first.given.cr.spec, JWKSURL(w, first.given).value), first.given.cr.spec,
      w.secrets, Components(v.config, second.given.cr.spec, JWKSURL(v, second.given).value), second.given.cr.spec,
      v.secrets);
    if first.given.cr.spec == second.given.cr.spec {
      HashesChangeIff(fn, w, first, steps, second);
      assert forall i: nat :: Changes(fn, w, first, steps, second)(i) == ChangedAt(fn, w, first, steps, second, i);
    }
  }
}
