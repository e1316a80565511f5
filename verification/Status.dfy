/** The published status of the singleton configuration and how one reconcile updates it. */
module Status {
  import opened Strings
  import opened Sorting
  import opened Conditions

  /** What one component reported, and what is published for it. */
  datatype ComponentConditions = ComponentConditions(name: string, conditions: seq<Condition>)

  datatype Status = Status(
    observedGeneration: nat,
    conditions: seq<Condition>,
    components: seq<ComponentConditions>)

  /** What one reconcile learned, as the deferred status update sees it. */
  datatype Findings = Findings(
    generation: nat,
    reports: seq<ComponentConditions>,
    collected: bool,
    missing: seq<string>,
    failed: bool)

  function ByName(): ComponentConditions -> string {
    (c: ComponentConditions) => c.name
  }

  // ----- roll-up -----

  function Flatten(reports: seq<ComponentConditions>): seq<Condition> {
    if |reports| == 0 then [] else Flatten(reports[..|reports| - 1]) + reports[|reports| - 1].conditions
  }

  method FlattenConditions(reports: seq<ComponentConditions>) returns (flat: seq<Condition>)
    ensures flat == Flatten(reports)
  {
    flat := [];
    for i := 0 to |reports|
      invariant flat == Flatten(reports[..i])
    {
      assert reports[..i + 1][..i] == reports[..i];
      flat := flat + reports[i].conditions;
    }
    assert reports[..|reports|] == reports;
  }

  /** The first condition of the type that is not in the expected state. */
  function FirstUnexpected(kind: string, cs: seq<Condition>, expected: ConditionStatus): (c: Option<Condition>)
    ensures c.None? <==> forall d | d in cs && d.kind == kind :: d.status == expected
    ensures c.Some? ==> c.value in cs && c.value.kind == kind && c.value.status != expected
  {
    if |cs| == 0 then None
    else if cs[0].kind == kind && cs[0].status != expected then Some(cs[0])
    else
      assert forall d | d in cs :: d == cs[0] || d in cs[1..];
      FirstUnexpected(kind, cs[1..], expected)
  }

  function Rollup(kind: string, cs: seq<Condition>, reason: string, message: string,
                  expected: ConditionStatus): Condition {
    match FirstUnexpected(kind, cs, expected)
    case Some(c) => Condition(kind, c.status, c.reason, c.message, 0, 0)
    case None => Condition(kind, expected, reason, message, 0, 0)
  }

  /** Condition `i` is the first of the type that is not in the expected state. */
  predicate FirstAt(kind: string, cs: seq<Condition>, expected: ConditionStatus, i: nat) {
    && i < |cs| && cs[i].kind == kind && cs[i].status != expected
    && forall j | 0 <= j < i && cs[j].kind == kind :: cs[j].status == expected
  }

  lemma {:induction false} FirstUnexpectedAt(kind: string, cs: seq<Condition>, expected: ConditionStatus, i: nat)
    requires FirstAt(kind, cs, expected, i)
    ensures FirstUnexpected(kind, cs, expected) == Some(cs[i])
  {
    if i == 0 {
    } else {
      var rest := cs[1..];
      assert forall j | 0 <= j < |rest| :: rest[j] == cs[j + 1];
      FirstUnexpectedAt(kind, rest, expected, i - 1);
    }
  }

  /** The roll-up shows the first unexpected condition as it is reported, else the defaults. */
  lemma RollupShows(kind: string, cs: seq<Condition>, reason: string, message: string, expected: ConditionStatus)
    ensures var c := Rollup(kind, cs, reason, message, expected);
            && c.kind == kind
            && (forall i: nat | FirstAt(kind, cs, expected, i) ::
                  c.status == cs[i].status && c.reason == cs[i].reason && c.message == cs[i].message)
            && ((forall i | 0 <= i < |cs| && cs[i].kind == kind :: cs[i].status == expected) ==>
                  c.status == expected && c.reason == reason && c.message == message)
  {
    forall i: nat | FirstAt(kind, cs, expected, i)
      ensures FirstUnexpected(kind, cs, expected) == Some(cs[i])
    {
      FirstUnexpectedAt(kind, cs, expected, i);
    }
  }

  method RollupCondition(kind: string, cs: seq<Condition>, reason: string, message: string, expected: ConditionStatus)
      returns (c: Condition)
    ensures c == Rollup(kind, cs, reason, message, expected)
    ensures forall i: nat | FirstAt(kind, cs, expected, i) ::
              c.status == cs[i].status && c.reason == cs[i].reason && c.message == cs[i].message
    ensures (forall i | 0 <= i < |cs| && cs[i].kind == kind :: cs[i].status == expected) ==>
              c.status == expected && c.reason == reason && c.message == message
  {
    RollupShows(kind, cs, reason, message, expected);
    for i := 0 to |cs|
      invariant FirstUnexpected(kind, cs, expected) == FirstUnexpected(kind, cs[i..], expected)
    {
      if cs[i].kind == kind && cs[i].status != expected {
        return Condition(kind, cs[i].status, cs[i].reason, cs[i].message, 0, 0);
      }
    }
    return Condition(kind, expected, reason, message, 0, 0);
  }

  /** A missing Secret takes precedence over the error it usually causes. */
  function DegradedCondition(missing: seq<string>, failed: bool): (c: Condition)
    ensures c.kind == DEGRADED
    ensures c.status == False <==> missing == [] && !failed
    ensures c.status != False ==> c.status == True
    ensures c.reason == "ReferencedSecretMissing" <==> missing != []
  {
    if |missing| > 0 then
      Condition(DEGRADED, True, "ReferencedSecretMissing",
        "referenced secret(s) missing in the operator's namespace: " + Join(missing, ", "), 0, 0)
    else if failed then
      Condition(DEGRADED, True, "ReconcileError",
        "the last reconcile failed; see the operator's logs for details", 0, 0)
    else
      Condition(DEGRADED, False, "AsExpected", "no failure detected", 0, 0)
  }

  function AvailableRollup(cs: seq<Condition>): (c: Condition)
    ensures c.kind == AVAILABLE
    ensures c.status == True <==> forall d | d in cs && d.kind == AVAILABLE :: d.status == True
  {
    Rollup(AVAILABLE, cs, "DeploymentAvailable", "all components are available", True)
  }

  function ProgressingRollup(cs: seq<Condition>): (c: Condition)
    ensures c.kind == PROGRESSING
    ensures c.status == False <==> forall d | d in cs && d.kind == PROGRESSING :: d.status == False
  {
    Rollup(PROGRESSING, cs, "RolloutComplete", "all components have completed rollout", False)
  }

  function TopLevel(f: Findings): seq<Condition> {
    var flat := Flatten(f.reports);
    [DegradedCondition(f.missing, f.failed)]
    + if f.collected then [AvailableRollup(flat), ProgressingRollup(flat)] else []
  }

  // ----- writing a list of conditions -----

  function SetAll(cs: seq<Condition>, reported: seq<Condition>, generation: nat, now: Time): seq<Condition> {
    if |reported| == 0 then cs
    else
      var n := |reported| - 1;
      Set(SetAll(cs, reported[..n], generation, now), reported[n].(observedGeneration := generation), now)
  }

  lemma {:induction false} SetAllUnique(cs: seq<Condition>, reported: seq<Condition>, generation: nat, now: Time)
    requires UniqueKinds(cs)
    ensures UniqueKinds(SetAll(cs, reported, generation, now))
  {
    if reported == [] {
    } else {
      var n := |reported| - 1;
      SetAllUnique(cs, reported[..n], generation, now);
      SetUnique(SetAll(cs, reported[..n], generation, now), reported[n].(observedGeneration := generation), now);
    }
  }

  lemma {:induction false} FindAppend(cs: seq<Condition>, d: Condition, kind: string)
    ensures Find(cs + [d], kind) ==
            if Find(cs, kind).Some? then Find(cs, kind) else if d.kind == kind then Some(d) else None
  {
    if cs == [] {
      assert [] + [d] == [d] && Find([d][1..], kind) == None;
    } else {
      FindAppend(cs[1..], d, kind);
      assert (cs + [d])[1..] == cs[1..] + [d];
    }
  }

  /** With one fresh condition per type, each type named is written once and every other
      type keeps its entry. */
  lemma {:induction false} FindSetAll(cs: seq<Condition>, reported: seq<Condition>, generation: nat, now: Time,
                                      kind: string)
    requires UniqueKinds(reported)
    ensures Find(SetAll(cs, reported, generation, now), kind) ==
            match Find(reported, kind)
            case Some(c) => Some(Written(Find(cs, kind), c.(observedGeneration := generation), now))
            case None => Find(cs, kind)
  {
    if reported == [] {
    } else {
      var n := |reported| - 1;
      FindSetAll(cs, reported[..n], generation, now, kind);
      FindSet(SetAll(cs, reported[..n], generation, now), reported[n].(observedGeneration := generation), now, kind);
      assert reported == reported[..n] + [reported[n]];
      FindAppend(reported[..n], reported[n], kind);
    }
  }

  /** A type that was written carries the generation, another did not move. */
  predicate Carried(before: Option<Condition>, reported: Option<Condition>, after: Option<Condition>, generation: nat) {
    if reported.None? then after == before else after.Some? && after.value.observedGeneration == generation
  }

  lemma CarriedNext(before: Option<Condition>, reported: Option<Condition>, cs: seq<Condition>, c: Condition,
                    now: Time, kind: string)
    requires Carried(before, reported, Find(cs, kind), c.observedGeneration)
    ensures Carried(before, if reported.None? && c.kind == kind then Some(c) else reported,
                    Find(Set(cs, c, now), kind), c.observedGeneration)
  {
    FindSet(cs, c, now, kind);
  }

  /** Whatever the list, the written types carry the generation and the others do not move. */
  lemma {:induction false} SetAllFound(cs: seq<Condition>, reported: seq<Condition>, generation: nat, now: Time,
                                       kind: string)
    ensures Carried(Find(cs, kind), Find(reported, kind), Find(SetAll(cs, reported, generation, now), kind), generation)
  {
    if reported == [] {
    } else {
      var n := |reported| - 1;
      SetAllFound(cs, reported[..n], generation, now, kind);
      CarriedNext(Find(cs, kind), Find(reported[..n], kind), SetAll(cs, reported[..n], generation, now),
        reported[n].(observedGeneration := generation), now, kind);
      assert reported == reported[..n] + [reported[n]];
      FindAppend(reported[..n], reported[n], kind);
    }
  }

  /** Writing `c` over `cs` would change nothing. */
  predicate Agrees(cs: seq<Condition>, c: Condition, generation: nat) {
    var d := Find(cs, c.kind);
    && d.Some? && d.value.status == c.status && d.value.reason == c.reason && d.value.message == c.message
    && d.value.observedGeneration == generation
  }

  lemma {:induction false} SetAllAgrees(cs: seq<Condition>, reported: seq<Condition>, generation: nat, now: Time)
    requires forall c | c in reported :: Agrees(cs, c, generation)
    ensures SetAll(cs, reported, generation, now) == cs
  {
    if reported == [] {
    } else {
      var n := |reported| - 1;
      assert reported[n] in reported;
      assert forall c | c in reported[..n] :: c in reported;
      SetAllAgrees(cs, reported[..n], generation, now);
      SetNoChange(cs, reported[n].(observedGeneration := generation), now);
    }
  }

  lemma WrittenAgrees(cs: seq<Condition>, c: Condition, generation: nat, now: Time)
    requires Find(cs, c.kind) == Some(Written(Find(cs, c.kind), c.(observedGeneration := generation), now))
    ensures Agrees(cs, c, generation)
  {
  }

  /** Nothing changes exactly when every fresh condition agrees with its entry: one write
      cannot undo another of a different type. */
  lemma SetAllNoChange(cs: seq<Condition>, reported: seq<Condition>, generation: nat, now: Time)
    requires UniqueKinds(reported)
    ensures SetAll(cs, reported, generation, now) == cs <==> forall c | c in reported :: Agrees(cs, c, generation)
  {
    if SetAll(cs, reported, generation, now) == cs {
      forall c | c in reported ensures Agrees(cs, c, generation) {
        FindUnique(reported, c);
        FindSetAll(cs, reported, generation, now, c.kind);
        WrittenAgrees(cs, c, generation, now);
      }
    } else if forall c | c in reported :: Agrees(cs, c, generation) {
      SetAllAgrees(cs, reported, generation, now);
    }
  }

  // ----- per-component entries -----

  function Kinds(cs: seq<Condition>): set<string> {
    set c | c in cs :: c.kind
  }

  /** The previously published conditions of the types still reported. */
  function Seed(prev: seq<Condition>, kinds: set<string>): (r: seq<Condition>)
    ensures forall c :: c in r <==> c in prev && c.kind in kinds
  {
    if |prev| == 0 then []
    else
      var n := |prev| - 1;
      assert forall c :: c in prev <==> c in prev[..n] || c == prev[n];
      Seed(prev[..n], kinds) + if prev[n].kind in kinds then [prev[n]] else []
  }

  function Merge(prev: seq<Condition>, reported: seq<Condition>, generation: nat, now: Time): seq<Condition> {
    SetAll(Seed(prev, Kinds(reported)), reported, generation, now)
  }

  function FindEntry(entries: seq<ComponentConditions>, name: string): (e: Option<ComponentConditions>)
    ensures e.Some? ==> e.value in entries && e.value.name == name
    ensures e.None? <==> forall x | x in entries :: x.name != name
  {
    if |entries| == 0 then None
    else if entries[0].name == name then Some(entries[0])
    else
      assert forall x | x in entries :: x == entries[0] || x in entries[1..];
      FindEntry(entries[1..], name)
  }

  function Published(prev: seq<ComponentConditions>, name: string): seq<Condition> {
    var e := FindEntry(prev, name);
    if e.Some? then e.value.conditions else []
  }

  function Entry(prev: seq<ComponentConditions>, report: ComponentConditions, generation: nat,
                 now: Time): ComponentConditions {
    ComponentConditions(report.name, Merge(Published(prev, report.name), report.conditions, generation, now))
  }

  /** The new list for reports already sorted by name. */
  function Entries(prev: seq<ComponentConditions>, reports: seq<ComponentConditions>, generation: nat, now: Time):
      (r: seq<ComponentConditions>)
    ensures |r| == |reports|
    ensures forall i | 0 <= i < |r| :: r[i] == Entry(prev, reports[i], generation, now)
  {
    seq(|reports|, i requires 0 <= i < |reports| => Entry(prev, reports[i], generation, now))
  }

  // ----- one update -----

  /** The status after one deferred update, when no two reports share a name. */
  function Aggregate(s: Status, f: Findings, now: Time): Status {
    var conditions := SetAll(s.conditions, TopLevel(f), f.generation, now);
    if f.collected then
      Status(f.generation, conditions, Entries(s.components, SortBy(f.reports, ByName()), f.generation, now))
    else s.(conditions := conditions)
  }

  /** The old status as the comparison reads it: components in the order of their names. */
  function Comparable(s: Status, f: Findings): Status {
    if f.collected then s.(components := SortBy(s.components, ByName())) else s
  }

  /** What `aggregateStatus` may leave and report, whatever an unstable sort does with
      reports or published entries that share a name. */
  ghost predicate Aggregated(s: Status, f: Findings, now: Time, after: Status, changed: bool) {
    after.conditions == SetAll(s.conditions, TopLevel(f), f.generation, now) &&
    if !f.collected then
      after == s.(conditions := after.conditions) && (changed <==> after.conditions != s.conditions)
    else
      exists sorted, prev: seq<ComponentConditions> ::
        && SortResult(sorted, f.reports, ByName()) && SortResult(prev, s.components, ByName())
        && after.components == Entries(s.components, sorted, f.generation, now)
        && after.observedGeneration == f.generation
        && (changed <==> after.conditions != s.conditions || after.components != prev
                         || after.observedGeneration != s.observedGeneration)
  }

  /** With distinct names the update is a function, and the flag is exact: it is false
      exactly when the new status is the old one with its components sorted by name. */
  lemma ChangeFlagExact(s: Status, f: Findings, now: Time, after: Status, changed: bool)
    requires DistinctKeys(f.reports, ByName()) && DistinctKeys(s.components, ByName())
    requires Aggregated(s, f, now, after, changed)
    ensures after == Aggregate(s, f, now)
    ensures changed <==> after != Comparable(s, f)
  {
    if f.collected {
      var sorted, prev: seq<ComponentConditions> :|
        && SortResult(sorted, f.reports, ByName()) && SortResult(prev, s.components, ByName())
        && after.components == Entries(s.components, sorted, f.generation, now)
        && after.observedGeneration == f.generation
        && (changed <==> after.conditions != s.conditions || after.components != prev
                         || after.observedGeneration != s.observedGeneration);
      SortResultIsSortBy(sorted, f.reports);
      SortResultIsSortBy(prev, s.components);
    }
  }

  lemma SortResultIsSortBy(r: seq<ComponentConditions>, s: seq<ComponentConditions>)
    requires SortResult(r, s, ByName()) && DistinctKeys(s, ByName())
    ensures r == SortBy(s, ByName())
  {
    SortBySorts(s, ByName());
    DistinctKeysPermute(s, r, ByName());
    SortResultUnique(r, SortBy(s, ByName()), ByName());
  }

  lemma TopLevelUnique(f: Findings)
    ensures UniqueKinds(TopLevel(f))
  {
  }

  /** One more write cannot restore what the writes before it changed. */
  lemma NextChange(cs: seq<Condition>, conditions: seq<Condition>, i: nat, generation: nat, now: Time)
    requires UniqueKinds(conditions) && i < |conditions|
    ensures var before := SetAll(cs, conditions[..i], generation, now);
            var after := Set(before, conditions[i].(observedGeneration := generation), now);
            && after == SetAll(cs, conditions[..i + 1], generation, now)
            && (after == cs ==> before == cs)
  {
    assert conditions[..i + 1][..i] == conditions[..i];
    SetAllNoChange(cs, conditions[..i], generation, now);
    SetAllNoChange(cs, conditions[..i + 1], generation, now);
    assert forall c | c in conditions[..i] :: c in conditions[..i + 1];
  }

  /** The status part of the custom resource, and the code that updates it in place. */
  class HyperFleetConfig {
    var generation: nat
    var status: Status

    constructor (generation: nat, status: Status)
      ensures this.generation == generation && this.status == status
    {
      this.generation, this.status := generation, status;
    }

    method SetComponentStatuses(reports: seq<ComponentConditions>, now: Time) returns (changed: bool)
      modifies this`status
      ensures status == old(status).(components := status.components)
      ensures exists sorted, prev: seq<ComponentConditions> ::
          && SortResult(sorted, reports, ByName()) && SortResult(prev, old(status.components), ByName())
          && status.components == Entries(old(status.components), sorted, generation, now)
          && (changed <==> status.components != prev)
    {
      var sorted := SortFunc(reports, ByName());
      var entries: seq<ComponentConditions> := [];
      for i := 0 to |sorted|
        invariant status == old(status)
        invariant entries == Entries(status.components, sorted[..i], generation, now)
      {
        var entry := sorted[i];
        var conds := MergeConditions(Published(status.components, entry.name), entry.conditions, now);
        entries := entries + [ComponentConditions(entry.name, conds)];
      }
      assert sorted[..|sorted|] == sorted;
      var prev := SortFunc(status.components, ByName());
      changed := prev != entries;
      status := status.(components := entries);
    }

    /** Rebuild one entry: seed it with the published conditions of the types still
        reported, then overlay the report. */
    method MergeConditions(prevConds: seq<Condition>, reported: seq<Condition>, now: Time)
        returns (conds: seq<Condition>)
      ensures conds == Merge(prevConds, reported, generation, now)
    {
      var freshTypes: set<string> := {};
      for j := 0 to |reported|
        invariant freshTypes == Kinds(reported[..j])
      {
        freshTypes := freshTypes + {reported[j].kind};
      }
      assert reported[..|reported|] == reported;
      conds := [];
      for j := 0 to |prevConds|
        invariant conds == Seed(prevConds[..j], freshTypes)
      {
        assert prevConds[..j + 1][..j] == prevConds[..j];
        if prevConds[j].kind in freshTypes {
          conds := conds + [prevConds[j]];
        }
      }
      assert prevConds[..|prevConds|] == prevConds;
      ghost var seeded := conds;
      for j := 0 to |reported|
        invariant conds == SetAll(seeded, reported[..j], generation, now)
      {
        assert reported[..j + 1][..j] == reported[..j];
        var ignored;
        conds, ignored := SetStatusCondition(conds, reported[j].(observedGeneration := generation), now);
      }
    }

    method SetConditions(conditions: seq<Condition>, now: Time) returns (changed: bool)
      requires UniqueKinds(conditions)
      modifies this`status
      ensures status == old(status).(conditions := SetAll(old(status.conditions), conditions, generation, now))
      ensures changed <==> status.conditions != old(status.conditions)
    {
      changed := false;
      for i := 0 to |conditions|
        invariant status == old(status).(conditions := SetAll(old(status.conditions), conditions[..i], generation, now))
        invariant changed <==> status.conditions != old(status.conditions)
      {
        var updated, moved := SetStatusCondition(status.conditions, conditions[i].(observedGeneration := generation),
          now);
        NextChange(old(status.conditions), conditions, i, generation, now);
        status := status.(conditions := updated);
        if moved {
          changed := true;
        }
      }
      assert conditions[..|conditions|] == conditions;
    }

    /** `aggregateStatus` */
    method AggregateStatus(f: Findings, now: Time) returns (changed: bool)
      requires f.generation == generation
      modifies this`status
      ensures Aggregated(old(status), f, now, status, changed)
    {
      var flat := FlattenConditions(f.reports);
      var conditions := [DegradedCondition(f.missing, f.failed)];
      if f.collected {
        var available := RollupCondition(AVAILABLE, flat, "DeploymentAvailable", "all components are available", True);
        var progressing := RollupCondition(PROGRESSING, flat, "RolloutComplete",
          "all components have completed rollout", False);
        conditions := conditions + [available, progressing];
      }
      assert conditions == TopLevel(f);
      TopLevelUnique(f);
      changed := SetConditions(conditions, now);
      if f.collected {
        var componentsChanged := SetComponentStatuses(f.reports, now);
        if componentsChanged {
          changed := true;
        }
        if status.observedGeneration != generation {
          status := status.(observedGeneration := generation);
          changed := true;
        }
      }
    }
  }
}
