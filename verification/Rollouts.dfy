/** Applying a component's operands and counting the rollouts that causes. */
module Rollouts {
  import opened Strings
  import opened Operands
  import opened Stamping

  const TEMPLATE_HASH_ANNOTATION := "hyperfleet.redhat.com/template-hash"

  datatype Trigger = Create | Image | ConfigChange

  datatype Event = Event(component: string, trigger: Trigger)

  /** An apply request is answered, refused, or carried out without the answer arriving. */
  datatype Reply = Acknowledged | Rejected | Unanswered

  /** Which requests of one reconcile fail, other than reads of absent objects. */
  datatype Faults = Faults(detectRead: Key -> bool, apply: Key -> Reply, refresh: Key -> bool)

  // ----- detection -----

  predicate SameImages(a: PodTemplate, b: PodTemplate) {
    && |a.containers| == |b.containers|
    && forall i | 0 <= i < |a.containers| :: a.containers[i].image == b.containers[i].image
  }

  method SameContainerImages(a: PodTemplate, b: PodTemplate) returns (same: bool)
    ensures same <==> SameImages(a, b)
  {
    if |a.containers| != |b.containers| {
      return false;
    }
    for i := 0 to |a.containers|
      invariant forall j | 0 <= j < i :: a.containers[j].image == b.containers[j].image
    {
      if a.containers[i].image != b.containers[i].image {
        return false;
      }
    }
    return true;
  }

  function WithTemplateHash(o: Operand, digest: PodTemplate -> string): Operand {
    if o.Deployment? then o.(annotations := o.annotations[TEMPLATE_HASH_ANNOTATION := digest(o.template)]) else o
  }

  function WithTemplateHashes(objs: seq<Operand>, digest: PodTemplate -> string): (r: seq<Operand>)
    ensures |r| == |objs| && forall i | 0 <= i < |objs| :: r[i] == WithTemplateHash(objs[i], digest)
  {
    seq(|objs|, i requires 0 <= i < |objs| => WithTemplateHash(objs[i], digest))
  }

  /** The event one desired Deployment raises against the live object. */
  function EventsFor(component: string, d: Operand, digest: PodTemplate -> string, objects: Store,
                     f: Faults): seq<Event>
    requires d.Deployment?
  {
    var k := KeyOf(d);
    if f.detectRead(k) then []
    else if k !in objects then [Event(component, Create)]
    else
      var live := objects[k].owned;
      var prev := Lookup(live.annotations, TEMPLATE_HASH_ANNOTATION);
      if !SameImages(live.template, d.template) then [Event(component, Image)]
      else if prev != "" && prev != digest(d.template) then [Event(component, ConfigChange)]
      else []
  }

  function Detected(component: string, objs: seq<Operand>, digest: PodTemplate -> string, objects: Store,
                    f: Faults): seq<Event> {
    if |objs| == 0 then []
    else
      var n := |objs| - 1;
      Detected(component, objs[..n], digest, objects, f)
      + if objs[n].Deployment? then EventsFor(component, objs[n], digest, objects, f) else []
  }

  /** `detectRollouts`: compare with the live Deployments and stamp the desired hash. */
  method DetectRollouts(component: string, objs: array<Operand>, digest: PodTemplate -> string, objects: Store,
                        f: Faults)
      returns (events: seq<Event>)
    modifies objs
    ensures events == Detected(component, old(objs[..]), digest, objects, f)
    ensures objs[..] == WithTemplateHashes(old(objs[..]), digest)
  {
    ghost var before := objs[..];
    events := [];
    for i := 0 to objs.Length
      invariant forall j | i <= j < objs.Length :: objs[j] == before[j]
      invariant forall j | 0 <= j < i :: objs[j] == WithTemplateHash(before[j], digest)
      invariant events == Detected(component, before[..i], digest, objects, f)
    {
      assert before[..i + 1][..i] == before[..i];
      var dep := objs[i];
      if dep.Deployment? {
        var desired := digest(dep.template);
        objs[i] := dep.(annotations := dep.annotations[TEMPLATE_HASH_ANNOTATION := desired]);
        var k := KeyOf(dep);
        if f.detectRead(k) {
        } else if k !in objects {
          events := events + [Event(component, Create)];
        } else {
          var live := objects[k].owned;
          var prev := Lookup(live.annotations, TEMPLATE_HASH_ANNOTATION);
          var configChanged := prev != "" && prev != desired;
          var same := SameContainerImages(live.template, dep.template);
          if configChanged || !same {
            events := events + [Event(component, if !same then Image else ConfigChange)];
          }
        }
      }
    }
    assert before[..objs.Length] == before;
  }

  // ----- apply -----

  function WithOwner(objs: seq<Operand>, owner: string): (r: seq<Operand>)
    ensures |r| == |objs| && forall i | 0 <= i < |objs| :: r[i] == objs[i].(owner := owner)
  {
    seq(|objs|, i requires 0 <= i < |objs| => objs[i].(owner := owner))
  }

  /** The store after applying in order, and whether every request succeeded; the first
      failure ends it. */
  function Applied(objects: Store, objs: seq<Operand>, f: Faults): (Store, bool)
    decreases objs
  {
    if |objs| == 0 then (objects, true)
    else
      var k := KeyOf(objs[0]);
      match f.apply(k)
      case Rejected => (objects, false)
      case Unanswered => (Apply(objects, objs[0]), false)
      case Acknowledged =>
        if f.refresh(k) then (Apply(objects, objs[0]), false)
        else Applied(Apply(objects, objs[0]), objs[1..], f)
  }

  ghost predicate DistinctOperands(objs: seq<Operand>) {
    forall i, j | 0 <= i < j < |objs| :: KeyOf(objs[i]) != KeyOf(objs[j])
  }

  lemma {:induction false} AppliedFrame(objects: Store, objs: seq<Operand>, f: Faults, k: Key)
    requires forall o | o in objs :: KeyOf(o) != k
    ensures k in Applied(objects, objs, f).0 <==> k in objects
    ensures k in objects ==> Applied(objects, objs, f).0[k] == objects[k]
    decreases objs
  {
    if objs == [] {
    } else {
      AppliedFrame(Apply(objects, objs[0]), objs[1..], f, k);
    }
  }

  /** Applying never deletes an object, never touches another manager's fields and never
      touches what the Deployment controller reports, however it ends. */
  lemma {:induction false} AppliedKeepsForeign(objects: Store, objs: seq<Operand>, f: Faults, k: Key)
    requires k in objects
    ensures var after := Applied(objects, objs, f).0;
            k in after && after[k].foreign == objects[k].foreign && after[k].status == objects[k].status
            && after[k].generation >= objects[k].generation
    decreases objs
  {
    if objs == [] {
    } else {
      AppliedKeepsForeign(Apply(objects, objs[0]), objs[1..], f, k);
    }
  }

  ghost predicate Converged(objects: Store, objs: seq<Operand>) {
    forall o | o in objs :: KeyOf(o) in objects && objects[KeyOf(o)].owned == o
  }

  lemma {:induction false} AppliedConverges(objects: Store, objs: seq<Operand>, f: Faults)
    requires DistinctOperands(objs) && Applied(objects, objs, f).1
    ensures Converged(Applied(objects, objs, f).0, objs)
    decreases objs
  {
    if objs == [] {
    } else {
      AppliedConverges(Apply(objects, objs[0]), objs[1..], f);
      AppliedFrame(Apply(objects, objs[0]), objs[1..], f, KeyOf(objs[0]));
    }
  }

  /** Reapplying what is already there writes nothing, even when it is cut short. */
  lemma {:induction false} AppliedIdempotent(objects: Store, objs: seq<Operand>, f: Faults)
    requires Converged(objects, objs)
    ensures Applied(objects, objs, f).0 == objects
    decreases objs
  {
    if objs == [] {
    } else {
      ApplyIdempotent(objects, objs[0]);
      AppliedIdempotent(objects, objs[1..], f);
    }
  }

  lemma {:induction false} ConvergedRaisesNothing(component: string, objs: seq<Operand>, done: seq<Operand>,
                                                  digest: PodTemplate -> string, objects: Store, f: Faults)
    requires |done| == |objs| && Converged(objects, done)
    requires forall i | 0 <= i < |objs| :: KeyOf(done[i]) == KeyOf(objs[i])
    requires forall i | 0 <= i < |objs| && objs[i].Deployment? ::
               && done[i].Deployment? && done[i].template == objs[i].template
               && Lookup(done[i].annotations, TEMPLATE_HASH_ANNOTATION) == digest(objs[i].template)
    ensures Detected(component, objs, digest, objects, f) == []
  {
    if objs == [] {
    } else {
      var n := |objs| - 1;
      assert done[n] in done;
      ConvergedRaisesNothing(component, objs[..n], done[..n], digest, objects, f);
    }
  }

  // ----- what a rollout is, told from the store alone -----

  /** Why a template replaces the pods of another, if it does: an image differs, or the digest. */
  function Replaces(was: PodTemplate, now: PodTemplate, digest: PodTemplate -> string): Option<Trigger> {
    if !SameImages(was, now) then Some(Image)
    else if digest(was) != digest(now) then Some(ConfigChange)
    else None
  }

  function Images(t: PodTemplate): seq<string> {
    seq(|t.containers|, i requires 0 <= i < |t.containers| => t.containers[i].image)
  }

  /** An image rollout is exactly a change of the list of container images; a configuration rollout is a
      change of digest under the same images. */
  lemma ReplacesIff(was: PodTemplate, now: PodTemplate, digest: PodTemplate -> string)
    ensures Replaces(was, now, digest) == Some(Image) <==> Images(was) != Images(now)
    ensures Replaces(was, now, digest) == Some(ConfigChange) <==>
            Images(was) == Images(now) && digest(was) != digest(now)
    ensures Replaces(was, now, digest) != Some(Create)
  {
    if Images(was) == Images(now) {
      forall i | 0 <= i < |was.containers| ensures was.containers[i].image == now.containers[i].image {
        assert Images(was)[i] == Images(now)[i];
      }
    }
  }

  /** Why the pods of a Deployment were replaced between two stores, if they were: it was
      created, or its template replaced them. */
  function Rollout(before: Store, after: Store, k: Key, digest: PodTemplate -> string): Option<Trigger>
    requires k.kind == DeploymentKind
  {
    if k !in after then None
    else if k !in before then Some(Create)
    else Replaces(before[k].owned.template, after[k].owned.template, digest)
  }

  /** With a digest that tells templates apart, a rollout is a creation or a change of the
      desired template, and every such change is one. */
  lemma RolloutIff(before: Store, after: Store, k: Key, digest: PodTemplate -> string)
    requires k.kind == DeploymentKind && forall s, t | digest(s) == digest(t) :: s == t
    ensures Rollout(before, after, k, digest).Some? <==>
            k in after && (k in before ==> before[k].owned.template != after[k].owned.template)
  {
  }

  /** The digest the operator last recorded on the Deployment, "" if none. */
  function RecordedDigest(objects: Store, k: Key): string
    requires k.kind == DeploymentKind && k in objects
  {
    Lookup(objects[k].owned.annotations, TEMPLATE_HASH_ANNOTATION)
  }

  /** A stored Deployment's annotation is the digest of its template, or was never set. */
  predicate Honest(objects: Store, k: Key, digest: PodTemplate -> string)
    requires k.kind == DeploymentKind
  {
    k in objects ==> RecordedDigest(objects, k) == "" || RecordedDigest(objects, k) == digest(objects[k].owned.template)
  }

  /** A stored Deployment carries a digest: this operator applied it. */
  predicate Recorded(objects: Store, k: Key)
    requires k.kind == DeploymentKind
  {
    k in objects ==> RecordedDigest(objects, k) != ""
  }

  ghost predicate NeverEmpty(digest: PodTemplate -> string) {
    forall t :: digest(t) != ""
  }

  /** None of the requests that could hide a rollout of this Deployment fails. */
  predicate Observed(f: Faults, k: Key) {
    !f.detectRead(k) && f.apply(k) != Unanswered && !f.refresh(k)
  }

  /** A rollout of this kind would go uncounted: a request fails that could hide it, or the
      template changes on a Deployment whose digest was never recorded. */
  predicate Hidden(before: Store, k: Key, f: Faults, t: Trigger)
    requires k.kind == DeploymentKind
  {
    !Observed(f, k) || (t == ConfigChange && k in before && RecordedDigest(before, k) == "")
  }

  function Bit(b: bool): nat {
    if b then 1 else 0
  }

  /** How often an event was counted: the counter of a component for one trigger. */
  function Count(events: seq<Event>, e: Event): nat {
    if |events| == 0 then 0
    else Count(events[..|events| - 1], e) + Bit(events[|events| - 1] == e)
  }

  lemma {:induction false} CountAppend(a: seq<Event>, b: seq<Event>, e: Event)
    ensures Count(a + b, e) == Count(a, e) + Count(b, e)
  {
    if b == [] {
      assert a + b == a;
    } else {
      var n := |b| - 1;
      assert (a + b)[..|a + b| - 1] == a + b[..n] && (a + b)[|a + b| - 1] == b[n];
      CountAppend(a, b[..n], e);
    }
  }

  lemma CountOne(e: Event, x: Event)
    ensures Count([x], e) == Bit(x == e)
  {
    assert [x][..0] == [];
  }
}
