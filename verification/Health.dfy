/** A component's health, read off its Deployment. */
module Health {
  import opened Strings
  import opened Conditions
  import opened Operands
  import opened ConfigHash
  import StatusRuns

  /** `spec.replicas`, 1 when unset. */
  function DesiredReplicas(dep: Live): nat {
    if dep.owned.Deployment? && dep.owned.replicas.Some? then dep.owned.replicas.value else 1
  }

  function AvailableCondition(subject: string, dep: Option<Live>): (c: Condition)
    ensures c.kind == AVAILABLE && c.lastTransitionTime == 0
  {
    match dep
    case None => Condition(AVAILABLE, False, "DeploymentUnavailable", subject + " Deployment does not exist", 0, 0)
    case Some(d) =>
      var desired, available := DesiredReplicas(d), d.status.availableReplicas;
      if desired == 0 then
        Condition(AVAILABLE, True, "DeploymentAvailable", subject + " Deployment is scaled to zero", 0, 0)
      else if available == 0 then
        Condition(AVAILABLE, False, "DeploymentUnavailable", subject + " Deployment has no available replicas", 0, 0)
      else if available < desired then
        Condition(AVAILABLE, False, "DeploymentNotReady",
          subject + " Deployment has " + Decimal(available) + "/" + Decimal(desired) + " replicas available", 0, 0)
      else
        Condition(AVAILABLE, True, "DeploymentAvailable", subject + " Deployment is available", 0, 0)
  }

  function ProgressingCondition(subject: string, dep: Option<Live>): (c: Condition)
    ensures c.kind == PROGRESSING && c.lastTransitionTime == 0
  {
    match dep
    case None => Condition(PROGRESSING, True, "RolloutInProgress", subject + " Deployment does not exist yet", 0, 0)
    case Some(d) =>
      if d.status.observedGeneration < d.generation || d.status.updatedReplicas < DesiredReplicas(d)
         || d.status.replicas != d.status.updatedReplicas || d.status.availableReplicas < d.status.updatedReplicas
      then Condition(PROGRESSING, True, "RolloutInProgress", subject + " Deployment rollout has not completed", 0, 0)
      else Condition(PROGRESSING, False, "RolloutComplete", subject + " Deployment rollout is complete", 0, 0)
  }

  function Report(subject: string, dep: Option<Live>): seq<Condition> {
    [AvailableCondition(subject, dep), ProgressingCondition(subject, dep)]
  }

  /** As many available replicas as wanted. */
  predicate HasReplicas(dep: Live) {
    dep.status.availableReplicas >= DesiredReplicas(dep)
  }

  /** The current generation was seen, and every replica wanted is updated, available and alone. */
  predicate Settled(dep: Live) {
    var s := dep.status;
    && s.observedGeneration >= dep.generation
    && DesiredReplicas(dep) <= s.updatedReplicas == s.replicas <= s.availableReplicas
  }

  /** What is said of a Deployment that wants one replica. */
  lemma SingleReplica(subject: string, d: Live)
    requires d.owned.Deployment? && d.owned.replicas == Some(1)
    ensures var s := d.status;
            && AvailableCondition(subject, Some(d)) ==
               (if s.availableReplicas >= 1
                then Condition("Available", True, "DeploymentAvailable", subject + " Deployment is available", 0, 0)
                else Condition("Available", False, "DeploymentUnavailable",
                       subject + " Deployment has no available replicas", 0, 0))
            && ProgressingCondition(subject, Some(d)) ==
               (if s.observedGeneration >= d.generation && 1 <= s.updatedReplicas == s.replicas <= s.availableReplicas
                then Condition("Progressing", False, "RolloutComplete",
                       subject + " Deployment rollout is complete", 0, 0)
                else Condition("Progressing", True, "RolloutInProgress",
                       subject + " Deployment rollout has not completed", 0, 0))
  {
  }

  /** An unset count means one replica; none wanted means available; some but too few is said in
      numbers. */
  lemma OtherCounts(subject: string, d: Live)
    requires d.owned.Deployment?
    ensures d.owned.replicas == None ==>
              AvailableCondition(subject, Some(d)) ==
              AvailableCondition(subject, Some(d.(owned := d.owned.(replicas := Some(1)))))
              && ProgressingCondition(subject, Some(d)) ==
                 ProgressingCondition(subject, Some(d.(owned := d.owned.(replicas := Some(1)))))
    ensures d.owned.replicas == Some(0) ==>
              AvailableCondition(subject, Some(d)) ==
              Condition("Available", True, "DeploymentAvailable", subject + " Deployment is scaled to zero", 0, 0)
    ensures d.owned.replicas.Some? && 0 < d.status.availableReplicas < d.owned.replicas.value ==>
              AvailableCondition(subject, Some(d)) ==
              Condition("Available", False, "DeploymentNotReady",
                subject + " Deployment has " + Decimal(d.status.availableReplicas) + "/"
                + Decimal(d.owned.replicas.value) + " replicas available", 0, 0)
    ensures AvailableCondition(subject, None) ==
            Condition("Available", False, "DeploymentUnavailable", subject + " Deployment does not exist", 0, 0)
    ensures ProgressingCondition(subject, None) ==
            Condition("Progressing", True, "RolloutInProgress", subject + " Deployment does not exist yet", 0, 0)
  {
  }

  /** For every state of every Deployment, rolled out implies available; and the two
      conditions answer the two questions independently of one another otherwise. */
  lemma RolledOutImpliesAvailable(subject: string, dep: Option<Live>)
    ensures StatusRuns.RolledOutIsAvailable(Report(subject, dep))
    ensures UniqueKinds(Report(subject, dep))
    ensures ProgressingCondition(subject, dep).status == False ==> AvailableCondition(subject, dep).status == True
    ensures AvailableCondition(subject, dep).status == True <==>
            dep.Some? && HasReplicas(dep.value)
    ensures ProgressingCondition(subject, dep).status == False <==>
            dep.Some? && Settled(dep.value)
  {
    KindsDiffer();
    var r := Report(subject, dep);
    assert UniqueKinds(r);
    FindUnique(r, r[0]);
    FindUnique(r, r[1]);
  }
}
