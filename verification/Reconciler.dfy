/** The reconciler as it runs: it fills lists and maps, writes the cluster as it goes, returns
    at the first error and updates the status on the way out. */
module Reconciler {
  import opened Strings
  import opened Sorting
  import opened Conditions
  import opened Status
  import opened ConfigHash
  import opened Operands
  import opened Rollouts
  import opened ReconcileLoop
  import opened Controller
  import opened Discovery
  import Bundle
  import Convergence
  import ControllerRuns
  import Health
  import Stamping
  import StatusRuns
  import StoredOperands
  import A = ApiComponent

  /** `Get` of the configuration. */
  datatype Read = Gone | Unreadable | Found(given: Inputs)

  // ----- facts the loops rely on -----

  /** The entries of every component are filed under its name. */
  ghost predicate Filed(entries: map<string, seq<HashEntry>>, cs: seq<Bundle.Component>, secrets: map<string, string>,
                        spec: Spec) {
    forall i | 0 <= i < |cs| ::
      && Bundle.Name(cs[i]) in entries
      && entries[Bundle.Name(cs[i])] == Stamping.EntriesFor(secrets, Bundle.ReferencedSecrets(cs[i], spec))
  }

  lemma FiledNext(entries: map<string, seq<HashEntry>>, cs: seq<Bundle.Component>, i: nat,
                  secrets: map<string, string>, spec: Spec)
    requires i < |cs| && Filed(entries, cs[..i], secrets, spec)
    requires forall j | 0 <= j < i :: Bundle.Name(cs[j]) != Bundle.Name(cs[i])
    ensures Filed(entries[Bundle.Name(cs[i]) := Stamping.EntriesFor(secrets, Bundle.ReferencedSecrets(cs[i], spec))],
                  cs[..i + 1], secrets, spec)
  {
  }

  lemma FiledAt(entries: map<string, seq<HashEntry>>, cs: seq<Bundle.Component>, i: nat, secrets: map<string, string>,
                spec: Spec)
    requires i < |cs| && Filed(entries, cs, secrets, spec)
    ensures Bundle.Name(cs[i]) in entries
    ensures entries[Bundle.Name(cs[i])] == Stamping.EntriesFor(secrets, Bundle.ReferencedSecrets(cs[i], spec))
  {
  }

  lemma HashNext(all: seq<string>, i: nat, hashes: seq<string>, hash: string)
    requires i < |all| && hashes == all[..i] && hash == all[i]
    ensures hashes + [hash] == all[..i + 1]
  {
  }

  lemma LoopNext(start: Progress, plans: seq<Plan>, i: nat, ctx: Context)
    requires i < |plans|
    ensures Loop(start, plans[..i + 1], ctx) == Turn(Loop(start, plans[..i], ctx), plans[i], ctx)
  {
    assert plans[..i + 1][..i] == plans[..i];
  }

  lemma DisjointOwn(cs: seq<Bundle.Component>)
    requires Bundle.Disjoint(cs)
    ensures forall i | 0 <= i < |cs| :: OwnKeys(cs[i])
  {
  }

  lemma FailedTurn(p: Progress, plan: Plan, ctx: Context)
    requires p.failed
    ensures Turn(p, plan, ctx) == p
  {
  }

  lemma {:induction false} LoopStopsUntil(start: Progress, plans: seq<Plan>, i: nat, m: nat, ctx: Context)
    requires i <= m <= |plans| && Loop(start, plans[..i], ctx).failed
    ensures Loop(start, plans[..m], ctx) == Loop(start, plans[..i], ctx)
  {
    if m == i {
    } else {
      var x := m - 1;
      LoopStopsUntil(start, plans, i, x, ctx);
      LoopNext(start, plans, x, ctx);
      FailedTurn(Loop(start, plans[..x], ctx), plans[x], ctx);
    }
  }

  lemma LoopStops(start: Progress, plans: seq<Plan>, i: nat, ctx: Context)
    requires i <= |plans| && Loop(start, plans[..i], ctx).failed
    ensures Loop(start, plans, ctx) == Loop(start, plans[..i], ctx)
  {
    LoopStopsUntil(start, plans, i, |plans|, ctx);
    assert plans[..|plans|] == plans;
  }

  /** Wiring a component's URLs changes neither its name nor its references. */
  ghost predicate SameReferences(a: seq<Bundle.Component>, b: seq<Bundle.Component>, spec: Spec) {
    && |a| == |b|
    && forall i | 0 <= i < |a| ::
         && Bundle.Name(a[i]) == Bundle.Name(b[i])
         && Bundle.ReferencedSecrets(a[i], spec) == Bundle.ReferencedSecrets(b[i], spec)
  }

  lemma {:induction false} GatheredSame(a: seq<Bundle.Component>, b: seq<Bundle.Component>,
                                        secrets: map<string, string>, given: Inputs)
    requires SameReferences(a, b, given.cr.spec)
    ensures Gathered(a, secrets, given) == Gathered(b, secrets, given)
  {
    if a == [] {
    } else {
      GatheredSame(a[..|a| - 1], b[..|b| - 1], secrets, given);
    }
  }

  lemma TierReferences(config: Bundle.Config, spec: Spec, base: string, jwks: string)
    requires config.broker.Some?
    ensures var tier := Bundle.Tier(config, Bundle.CLOUD_CAPI_ENTITIES, "", "");
            && SameReferences(tier, Bundle.Tier(config, Bundle.CLOUD_CAPI_ENTITIES, base, jwks), spec)
            && Bundle.WithBaseURL(tier, base) == Bundle.Tier(config, Bundle.CLOUD_CAPI_ENTITIES, base, "")
  {
  }

  lemma StampedDistinct(objs: seq<Operand>, digest: PodTemplate -> string)
    requires DistinctOperands(objs)
    ensures DistinctOperands(WithTemplateHashes(objs, digest))
  {
  }

  lemma WiredReferences(w: World, given: Inputs, url: string)
    requires Bundle.Resolved(given.cr.spec.bundle, w.config).Ok?
    ensures var spec := given.cr.spec;
            && SameReferences(Components(w.config, spec, ""), Components(w.config, spec, url), spec)
            && Gathered(Bundle.Resolved(spec.bundle, w.config).value, w.secrets, given)
               == Gathered(Components(w.config, spec, ""), w.secrets, given)
  {
    var base := A.APIBaseURL(given.cr.spec, w.config.namespace);
    TierReferences(w.config, given.cr.spec, base, "");
    TierReferences(w.config, given.cr.spec, base, url);
    GatheredSame(Bundle.Resolved(given.cr.spec.bundle, w.config).value, Components(w.config, given.cr.spec, ""),
      w.secrets, given);
  }

  /** Looking for the Deployment by name finds what the store holds under its key. */
  lemma RefreshedDeployment(plan: Plan, objs: seq<Operand>, live: seq<Live>, objects: Store, dep: Option<Live>,
                            name: string)
    requires SoundPlan(plan) && plan.objects.Ok?
    requires |objs| == |plan.objects.value| == |live| && plan.deployment.name == name
    requires forall i | 0 <= i < |objs| ::
               && KeyOf(objs[i]) == KeyOf(plan.objects.value[i])
               && KeyOf(objs[i]) in objects && live[i] == objects[KeyOf(objs[i])]
    requires dep.None? ==> forall i | 0 <= i < |live| :: !(live[i].owned.Deployment? && live[i].owned.name == name)
    requires dep.Some? ==> dep.value in live && dep.value.owned.Deployment? && dep.value.owned.name == name
    ensures plan.deployment in objects && dep == Some(objects[plan.deployment])
  {
  }

  lemma FindingsNamed(fn: Functions, w: World, given: Inputs)
    ensures DistinctKeys(Body(fn, w, given).findings.reports, ByName())
    ensures Body(fn, w, given).findings.generation == given.cr.generation
  {
    Convergence.BodyReportsGood(fn, w, given);
    ControllerRuns.BodyGeneration(fn, w, given);
  }

  /** What a request leaves in the fields it may write, and whether it fails: the body's outcome
      and the deferred status update. */
  ghost predicate Leaves(w: World, o: Outcome, objects: Store, cache: map<string, string>, counted: seq<Event>,
                         applied: Option<string>, status: Status, failed: bool, now: Time, stored: bool)
  {
    && objects == o.objects && cache == o.cache && counted == o.counted && applied == o.applied
    && status == StatusRuns.Publish(w.status, StatusRuns.Round(o.findings, now, stored))
    && (failed <==> o.findings.failed || (StatusRuns.Changed(w.status, o.findings, now) && !stored))
  }

  lemma LeavesOwned(fn: Functions, w: World, objects: Store, cache: map<string, string>, counted: seq<Event>,
                    applied: Option<string>, status: Status, failed: bool, given: Inputs, now: Time, stored: bool)
    requires Leaves(w, Body(fn, w, given), objects, cache, counted, applied, status, failed, now, stored)
    ensures StoredOperands.LeavesOwned(w, given, objects, failed)
  {
    forall k ensures StoredOperands.OwnsChanges(w.objects, objects, k, given.cr.name) {
      StoredOperands.ChangesAreOwned(fn, w, given, k);
    }
    if !failed {
      StoredOperands.WiredIsReached(fn, w, given);
      StoredOperands.OwnedByConfiguration(fn, w, given);
    }
  }

  lemma LeavesIsStep(fn: Functions, w: World, v: World, failed: bool, given: Inputs, now: Time, stored: bool)
    requires v.secrets == w.secrets && v.nextVersion == w.nextVersion && v.config == w.config
    requires Leaves(w, Body(fn, w, given), v.objects, v.cache, v.counted, v.applied, v.status, failed, now, stored)
    ensures v == ControllerRuns.Next(fn, w, ControllerRuns.Reconcile(given, now, stored))
    ensures failed <==> Fails(fn, w, given, now, stored)
  {
  }

  class HyperFleetConfigReconciler {
    const fn: Functions
    const discovery: DiscoveryCache
    var config: Bundle.Config
    var objects: Store
    var secrets: map<string, string>
    var published: Status
    var rollouts: seq<Event>
    var applied: Option<string>

    constructor (fn: Functions, config: Bundle.Config, objects: Store, secrets: map<string, string>, published: Status)
      ensures this.fn == fn && fresh(discovery)
      ensures State(0) == World(objects, secrets, 0, published, map[], [], None, config)
    {
      this.fn, this.config, this.objects, this.secrets, this.published := fn, config, objects, secrets, published;
      discovery := new DiscoveryCache();
      rollouts, applied := [], None;
    }

    /** The world as this process sees it. */
    ghost function State(nextVersion: nat): World
      reads this, discovery
    {
      World(objects, secrets, nextVersion, published, discovery.discoveryCache, rollouts, applied, config)
    }

    /** A missing Secret is an entry, any other read error is one. */
    method ResolveSecretEntries(given: Inputs, name: string, refs: seq<SecretReference>)
        returns (r: Result<seq<HashEntry>>)
      ensures r == if SecretReadFails(given, name, refs) then Failed else Ok(Stamping.EntriesFor(secrets, refs))
    {
      var entries: seq<HashEntry> := [];
      for i := 0 to |refs|
        invariant entries == Stamping.EntriesFor(secrets, refs[..i])
        invariant forall j | 0 <= j < i :: !given.secretFails(name, refs[j].secret)
      {
        var ref := refs[i];
        if given.secretFails(name, ref.secret) {
          return Failed;
        }
        if ref.secret !in secrets {
          entries := entries + [HashEntry(ref.role, false, "")];
        } else {
          entries := entries + [HashEntry(ref.role, true, secrets[ref.secret])];
        }
      }
      assert refs[..|refs|] == refs;
      return Ok(entries);
    }

    method AppendMissing(missing: seq<string>, entries: seq<HashEntry>) returns (r: seq<string>)
      ensures r == missing + Missing(entries)
    {
      r := missing;
      for j := 0 to |entries|
        invariant r == missing + Missing(entries[..j])
      {
        assert entries[..j + 1][..j] == entries[..j];
        if !entries[j].present {
          r := r + [entries[j].id];
        }
      }
      assert entries[..|entries|] == entries;
    }

    /** The Secret loop: entries by component name, and the roles found missing so far. */
    method GatherSecrets(cs: seq<Bundle.Component>, given: Inputs)
        returns (entries: map<string, seq<HashEntry>>, missing: seq<string>, ok: bool)
      requires forall i, j | 0 <= i < j < |cs| :: Bundle.Name(cs[i]) != Bundle.Name(cs[j])
      ensures missing == Gathered(cs, secrets, given).0 && ok == Gathered(cs, secrets, given).1
      ensures ok ==> Filed(entries, cs, secrets, given.cr.spec)
    {
      entries, missing, ok := map[], [], true;
      for i := 0 to |cs|
        invariant missing == Gathered(cs[..i], secrets, given).0 && Gathered(cs[..i], secrets, given).1
        invariant Filed(entries, cs[..i], secrets, given.cr.spec)
      {
        GatheredNext(cs, i, secrets, given);
        FiledNext(entries, cs, i, secrets, given.cr.spec);
        var r := ResolveSecretEntries(given, Bundle.Name(cs[i]), Bundle.ReferencedSecrets(cs[i], given.cr.spec));
        if r.Failed? {
          GatheredStops(cs, i + 1, secrets, given);
          ok := false;
          return;
        }
        entries := entries[Bundle.Name(cs[i]) := r.value];
        missing := AppendMissing(missing, r.value);
      }
      assert cs[..|cs|] == cs;
    }

    /** `apply.Objects`: own, apply and refresh each operand, until a request fails. */
    method ApplyObjects(objs: seq<Operand>, owner: string, f: Faults) returns (ok: bool, live: seq<Live>)
      modifies this`objects
      ensures (objects, ok) == Applied(old(objects), WithOwner(objs, owner), f)
      ensures ok && DistinctOperands(objs) ==> |live| == |objs| && forall i | 0 <= i < |objs| ::
                KeyOf(objs[i]) in objects && live[i] == objects[KeyOf(objs[i])]
    {
      live := [];
      ghost var all := WithOwner(objs, owner);
      for i := 0 to |objs|
        invariant |live| == i
        invariant Applied(old(objects), all, f) == Applied(objects, all[i..], f)
        invariant DistinctOperands(objs) ==> forall j | 0 <= j < i ::
                    KeyOf(objs[j]) in objects && live[j] == objects[KeyOf(objs[j])]
      {
        var obj := objs[i].(owner := owner);
        var k := KeyOf(obj);
        assert all[i..][0] == obj && all[i..][1..] == all[i + 1..];
        var reply := f.apply(k);
        if reply == Rejected {
          ok := false;
          return;
        }
        objects := Apply(objects, obj);
        if reply == Unanswered {
          ok := false;
          return;
        }
        if f.refresh(k) {
          ok := false;
          return;
        }
        live := live + [objects[k]];
      }
      ok := true;
    }

    method CommitRollouts(events: seq<Event>)
      modifies this`rollouts
      ensures rollouts == old(rollouts) + events
    {
      for i := 0 to |events|
        invariant rollouts == old(rollouts) + events[..i]
      {
        rollouts := rollouts + [events[i]];
      }
      assert events[..|events|] == events;
    }

    /** The component's Deployment among the refreshed objects. */
    method FindDeployment(live: seq<Live>, name: string) returns (dep: Option<Live>)
      ensures dep.None? ==> forall i | 0 <= i < |live| :: !(live[i].owned.Deployment? && live[i].owned.name == name)
      ensures dep.Some? ==> dep.value in live && dep.value.owned.Deployment? && dep.value.owned.name == name
    {
      for i := 0 to |live|
        invariant forall j | 0 <= j < i :: !(live[j].owned.Deployment? && live[j].owned.name == name)
      {
        if live[i].owned.Deployment? && live[i].owned.name == name {
          return Some(live[i]);
        }
      }
      return None;
    }

    /** Render and stamp the rollout hash. */
    method RenderComponent(c: Bundle.Component, spec: Spec, entries: seq<HashEntry>)
        returns (r: Result<seq<Operand>>, hash: string)
      requires entries == Stamping.EntriesFor(secrets, Bundle.ReferencedSecrets(c, spec))
      ensures r == PlanFor(fn, c, spec, secrets).objects && hash == HashFor(fn, c, spec, secrets)
    {
      var rendered := Bundle.Render(fn.marshal, c, spec);
      if rendered.Failed? {
        return Failed, "";
      }
      var objs := new Operand[|rendered.value|](i requires 0 <= i < |rendered.value| => rendered.value[i]);
      assert objs[..] == rendered.value;
      Stamping.EntriesDistinct(secrets, c, spec);
      hash := Stamping.StampConfigHash(fn.sha, objs, Bundle.Rollout(c), entries);
      return Ok(objs[..]), hash;
    }

    /** Detect, apply, count, and find the refreshed Deployment. */
    method ApplyPlan(plan: Plan, ctx: Context) returns (ok: bool, dep: Option<Live>)
      requires SoundPlan(plan) && plan.objects.Ok?
      modifies this`objects, this`rollouts
      ensures (objects, ok) == Applied(old(objects), Desired(plan.objects.value, ctx), ctx.faults)
      ensures rollouts == old(rollouts) +
                if ok then Detected(plan.name, plan.objects.value, ctx.digest, old(objects), ctx.faults) else []
      ensures ok ==> plan.deployment in objects && dep == Some(objects[plan.deployment])
    {
      var rendered := plan.objects.value;
      var objs := new Operand[|rendered|](i requires 0 <= i < |rendered| => rendered[i]);
      assert objs[..] == rendered;
      var events := DetectRollouts(plan.name, objs, ctx.digest, objects, ctx.faults);
      assert WithOwner(objs[..], ctx.owner) == Desired(rendered, ctx);
      ghost var stamped := objs[..];
      StampedDistinct(rendered, ctx.digest);
      var live;
      ok, live := ApplyObjects(objs[..], ctx.owner, ctx.faults);
      dep := None;
      if ok {
        CommitRollouts(events);
        dep := FindDeployment(live, plan.deployment.name);
        RefreshedDeployment(plan, stamped, live, objects, dep, plan.deployment.name);
      }
    }

    method TakeTurn(plan: Plan, ctx: Context, reports: seq<ComponentConditions>)
        returns (failed: bool, after: seq<ComponentConditions>)
      requires SoundPlan(plan)
      modifies this`objects, this`rollouts
      ensures var p := Turn(Progress(old(objects), old(rollouts), reports, false), plan, ctx);
              objects == p.objects && rollouts == p.counted && after == p.reports && failed == p.failed
    {
      if plan.objects.Failed? {
        return true, reports;
      }
      var ok, dep := ApplyPlan(plan, ctx);
      if !ok {
        assert rollouts == old(rollouts) + [];
        return true, reports;
      }
      return false, reports + [ComponentConditions(plan.name, Health.Report(plan.subject, dep))];
    }

    /** One component's turn. */
    method ReconcileComponent(c: Bundle.Component, given: Inputs, entries: seq<HashEntry>,
                              reports: seq<ComponentConditions>)
        returns (failed: bool, after: seq<ComponentConditions>, hash: string)
      requires OwnKeys(c) && entries == Stamping.EntriesFor(secrets, Bundle.ReferencedSecrets(c, given.cr.spec))
      modifies this`objects, this`rollouts
      ensures var p := Turn(Progress(old(objects), old(rollouts), reports, false),
                            PlanFor(fn, c, given.cr.spec, secrets),
                            Context(fn.digest, given.cr.name, given.faults));
              objects == p.objects && rollouts == p.counted && after == p.reports && failed == p.failed
      ensures hash == HashFor(fn, c, given.cr.spec, secrets)
    {
      var rendered;
      rendered, hash := RenderComponent(c, given.cr.spec, entries);
      var plan := Plan(Bundle.Name(c), Bundle.Subject(c), Bundle.DeploymentKey(c), rendered);
      PlanSound(fn, c, given.cr.spec, secrets);
      failed, after := TakeTurn(plan, Context(fn.digest, given.cr.name, given.faults), reports);
    }

    /** The component loop. */
    method ReconcileComponents(cs: seq<Bundle.Component>, given: Inputs, entries: map<string, seq<HashEntry>>)
        returns (failed: bool, reports: seq<ComponentConditions>, hashes: seq<string>)
      requires forall i | 0 <= i < |cs| :: OwnKeys(cs[i])
      requires Filed(entries, cs, secrets, given.cr.spec)
      modifies this`objects, this`rollouts
      ensures var p := Loop(Progress(old(objects), old(rollouts), [], false),
                            PlansFor(fn, cs, given.cr.spec, secrets), ContextFor(fn, given));
              objects == p.objects && rollouts == p.counted && reports == p.reports && failed == p.failed
      ensures !failed ==> hashes == HashesFor(fn, cs, given.cr.spec, secrets)
    {
      ghost var start, ctx := Progress(objects, rollouts, [], false), ContextFor(fn, given);
      ghost var plans, all := PlansFor(fn, cs, given.cr.spec, secrets), HashesFor(fn, cs, given.cr.spec, secrets);
      failed, reports, hashes := false, [], [];
      for i := 0 to |cs|
        invariant Progress(objects, rollouts, reports, failed) == Loop(start, plans[..i], ctx) && !failed
        invariant hashes == all[..i]
      {
        FiledAt(entries, cs, i, secrets, given.cr.spec);
        LoopNext(start, plans, i, ctx);
        var hash;
        failed, reports, hash := ReconcileComponent(cs[i], given, entries[Bundle.Name(cs[i])], reports);
        HashNext(all, i, hashes, hash);
        hashes := hashes + [hash];
        if failed {
          LoopStops(start, plans, i + 1, ctx);
          return;
        }
      }
      assert plans[..|cs|] == plans && all[..|cs|] == all;
    }

    /** Resolve the bundle and point the Sentinels at the API. */
    method ResolveComponents(spec: Spec) returns (r: Result<seq<Bundle.Component>>)
      ensures r.Failed? <==> Bundle.Resolved(spec.bundle, config).Failed?
      ensures r.Ok? ==> r.value == Components(config, spec, "")
    {
      var resolved := Bundle.Resolve(spec.bundle, config);
      if resolved.Failed? {
        return Failed;
      }
      var cs := resolved.value;
      var components := new Bundle.Component[|cs|](i requires 0 <= i < |cs| => cs[i]);
      assert components[..] == cs;
      Bundle.SetAPIBaseURL(components, A.APIBaseURL(spec, config.namespace));
      TierReferences(config, spec, A.APIBaseURL(spec, config.namespace), "");
      return Ok(components[..]);
    }

    /** Hand the resolved JWKS URL to the API component. */
    method WireJWKSURL(cs: seq<Bundle.Component>, spec: Spec, url: string) returns (r: seq<Bundle.Component>)
      requires Bundle.Resolved(spec.bundle, config).Ok? && cs == Components(config, spec, "")
      ensures r == Components(config, spec, url)
    {
      var components := new Bundle.Component[|cs|](i requires 0 <= i < |cs| => cs[i]);
      assert components[..] == cs;
      Bundle.SetResolvedJWKSURL(components, url);
      TierReferences(config, spec, A.APIBaseURL(spec, config.namespace), "");
      Bundle.WiredTier(config, Bundle.CLOUD_CAPI_ENTITIES, A.APIBaseURL(spec, config.namespace), url);
      return components[..];
    }

    /** Past the Secret loop and discovery. */
    method ReconcileResolved(wired: seq<Bundle.Component>, given: Inputs, entries: map<string, seq<HashEntry>>,
                             missing: seq<string>, url: string) returns (f: Findings)
      requires Bundle.Resolved(given.cr.spec.bundle, config).Ok? && wired == Components(config, given.cr.spec, "")
      requires Filed(entries, wired, secrets, given.cr.spec)
      modifies this`objects, this`rollouts, this`applied
      ensures var o := Rendered(fn, old(State(0)), given, missing, url, discovery.discoveryCache);
              objects == o.objects && rollouts == o.counted && applied == o.applied && f == o.findings
    {
      var cs := WireJWKSURL(wired, given.cr.spec, url);
      ComponentsSound(fn, config, given.cr.spec, url, secrets);
      WiredReferences(State(0), given, url);
      DisjointOwn(cs);
      var failed, reports, hashes := ReconcileComponents(cs, given, entries);
      if !failed {
        var digest := Stamping.HashConfig(fn.summary, fn.json(given.cr.spec), hashes);
        applied := Some(digest);
      }
      return Findings(given.cr.generation, reports, !failed, missing, failed);
    }

    /** From the end of the Secret loop on. */
    method ReconcileGathered(wired: seq<Bundle.Component>, given: Inputs, entries: map<string, seq<HashEntry>>,
                             missing: seq<string>)
        returns (f: Findings)
      requires Bundle.Resolved(given.cr.spec.bundle, config).Ok? && wired == Components(config, given.cr.spec, "")
      requires Filed(entries, wired, secrets, given.cr.spec)
      modifies this`objects, this`rollouts, this`applied, discovery
      ensures var o := PastSecrets(fn, old(State(0)), given, missing);
              objects == o.objects && discovery.discoveryCache == o.cache && rollouts == o.counted
              && applied == o.applied && f == o.findings
    {
      var url := discovery.ResolveJWKSURL(given.net, given.cr.spec);
      if url.Failed? {
        return Findings(given.cr.generation, [], false, missing, true);
      }
      f := ReconcileResolved(wired, given, entries, missing, url.value);
    }

    /** Everything between reading the configuration and the deferred status update. */
    method ReconcileBody(given: Inputs) returns (f: Findings)
      modifies this`objects, this`rollouts, this`applied, discovery
      ensures var o := Body(fn, old(State(0)), given);
              objects == o.objects && discovery.discoveryCache == o.cache && rollouts == o.counted
              && applied == o.applied && f == o.findings
    {
      var resolved := ResolveComponents(given.cr.spec);
      if resolved.Failed? {
        return Findings(given.cr.generation, [], false, [], true);
      }
      ComponentsSound(fn, config, given.cr.spec, "", secrets);
      WiredReferences(State(0), given, "");
      var entries, missing, ok := GatherSecrets(resolved.value, given);
      if !ok {
        return Findings(given.cr.generation, [], false, missing, true);
      }
      missing := SortCompact(missing);
      f := ReconcileGathered(resolved.value, given, entries, missing);
    }

    /** The deferred status update. */
    method UpdateStatus(f: Findings, now: Time, stored: bool) returns (failed: bool)
      requires DistinctKeys(published.components, ByName()) && DistinctKeys(f.reports, ByName())
      modifies this`published
      ensures published == StatusRuns.Publish(old(published), StatusRuns.Round(f, now, stored))
      ensures failed <==> StatusRuns.Changed(old(published), f, now) && !stored
    {
      var cr := new HyperFleetConfig(f.generation, published);
      var changed := cr.AggregateStatus(f, now);
      ChangeFlagExact(published, f, now, cr.status, changed);
      if changed && stored {
        published := cr.status;
      }
      return changed && !stored;
    }

    /** `Reconcile`. A configuration that is gone is left to garbage collection. */
    method Reconcile(read: Read, now: Time, stored: bool) returns (failed: bool)
      requires DistinctKeys(published.components, ByName())
      modifies this`objects, this`rollouts, this`applied, this`published, discovery
      ensures !read.Found? ==>
                && objects == old(objects) && discovery.discoveryCache == old(discovery.discoveryCache)
                && rollouts == old(rollouts) && applied == old(applied) && published == old(published)
                && (failed <==> read.Unreadable?)
      ensures read.Found? ==>
                Leaves(old(State(0)), Body(fn, old(State(0)), read.given),
                       objects, discovery.discoveryCache, rollouts, applied, published, failed, now, stored)
      ensures read.Found? ==> StoredOperands.LeavesOwned(old(State(0)), read.given, objects, failed)
    {
      if read.Gone? {
        return false;
      }
      if read.Unreadable? {
        return true;
      }
      var f := ReconcileBody(read.given);
      FindingsNamed(fn, old(State(0)), read.given);
      var updateFailed := UpdateStatus(f, now, stored);
      failed := f.failed || updateFailed;
      LeavesOwned(fn, old(State(0)), objects, discovery.discoveryCache, rollouts, applied, published, failed,
        read.given, now, stored);
    }

    /** A request with a configuration takes exactly one step of the world the run theorems speak
        about, and reports failure exactly when that step fails. */
    method ReconcileStep(given: Inputs, now: Time, stored: bool) returns (failed: bool)
      requires DistinctKeys(published.components, ByName())
      modifies this`objects, this`rollouts, this`applied, this`published, discovery
      ensures State(0) == ControllerRuns.Next(fn, old(State(0)), ControllerRuns.Reconcile(given, now, stored))
      ensures failed <==> Fails(fn, old(State(0)), given, now, stored)
      ensures StoredOperands.LeavesOwned(old(State(0)), given, objects, failed)
    {
      ghost var w := State(0);
      failed := Reconcile(Found(given), now, stored);
      LeavesIsStep(fn, w, State(0), failed, given, now, stored);
    }
  }
}
