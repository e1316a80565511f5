/** The published status over whole runs: reconciles that collected health, reconciles that
    aborted, and status writes that failed, in any mixture. */
module StatusRuns {
  import opened Strings
  import opened Sorting
  import opened Conditions
  import opened Status

  /** One reconcile: its findings, its clock, and whether a status write would succeed. */
  datatype Round = Round(findings: Findings, now: Time, stored: bool)

  /** What the components guarantee of their reports: distinct names, distinct condition
      types, and no transition time of their own. */
  ghost predicate WellFormed(reports: seq<ComponentConditions>) {
    && DistinctKeys(reports, ByName())
    && forall r | r in reports :: UniqueKinds(r.conditions) && forall c | c in r.conditions :: c.lastTransitionTime == 0
  }

  predicate Changed(s: Status, f: Findings, now: Time) {
    Aggregate(s, f, now) != Comparable(s, f)
  }

  /** The persisted status after a round: written only when something changed. */
  function Publish(s: Status, r: Round): Status {
    if Changed(s, r.findings, r.now) && r.stored then Aggregate(s, r.findings, r.now) else s
  }

  const INITIAL := Status(0, [], [])

  function Run(rounds: seq<Round>): Status {
    if |rounds| == 0 then INITIAL
    else Publish(Run(rounds[..|rounds| - 1]), rounds[|rounds| - 1])
  }

  ghost predicate Valid(rounds: seq<Round>) {
    && (forall r | r in rounds :: WellFormed(r.findings.reports))
    && (forall i, j | 0 <= i < j < |rounds| :: rounds[i].findings.generation <= rounds[j].findings.generation)
  }

  // ----- what every round keeps -----

  predicate Known(kind: string) {
    kind == DEGRADED || kind == AVAILABLE || kind == PROGRESSING
  }

  ghost predicate Lockstep(s: Status) {
    && UniqueKinds(s.conditions)
    && (forall c | c in s.conditions :: Known(c.kind))
    && (forall c | c in s.conditions ::
          if c.kind == DEGRADED then c.observedGeneration >= s.observedGeneration
          else c.observedGeneration == s.observedGeneration)
    && (forall e, c | e in s.components && c in e.conditions :: c.observedGeneration == s.observedGeneration)
    && (forall e | e in s.components :: UniqueKinds(e.conditions))
    && Sorted(s.components, ByName()) && DistinctKeys(s.components, ByName())
  }

  ghost predicate UpTo(s: Status, generation: nat) {
    s.observedGeneration <= generation && forall c | c in s.conditions :: c.observedGeneration <= generation
  }

  lemma {:induction false} SeedUnique(prev: seq<Condition>, kinds: set<string>)
    requires UniqueKinds(prev)
    ensures UniqueKinds(Seed(prev, kinds))
  {
    if prev == [] {
    } else {
      var n := |prev| - 1;
      SeedUnique(prev[..n], kinds);
      assert forall c | c in prev[..n] :: c.kind != prev[n].kind;
    }
  }

  lemma MergeLockstep(prev: seq<Condition>, reported: seq<Condition>, generation: nat, now: Time)
    requires UniqueKinds(prev)
    ensures UniqueKinds(Merge(prev, reported, generation, now))
    ensures forall c | c in Merge(prev, reported, generation, now) :: c.observedGeneration == generation
  {
    var seeded := Seed(prev, Kinds(reported));
    SeedUnique(prev, Kinds(reported));
    SetAllUnique(seeded, reported, generation, now);
    forall c | c in Merge(prev, reported, generation, now) ensures c.observedGeneration == generation {
      FindUnique(Merge(prev, reported, generation, now), c);
      SetAllFound(seeded, reported, generation, now, c.kind);
      SeededIsReported(prev, reported, c.kind);
    }
  }

  lemma SeededIsReported(prev: seq<Condition>, reported: seq<Condition>, kind: string)
    ensures Find(Seed(prev, Kinds(reported)), kind).Some? ==> Find(reported, kind).Some?
  {
  }

  lemma WrittenKinds(f: Findings, kind: string)
    ensures Find(TopLevel(f), kind).Some? <==> kind == DEGRADED || (f.collected && Known(kind))
  {
  }

  lemma ConditionLockstep(s: Status, f: Findings, now: Time, c: Condition)
    requires Lockstep(s) && UpTo(s, f.generation) && c in Aggregate(s, f, now).conditions
    requires UniqueKinds(Aggregate(s, f, now).conditions)
    ensures Known(c.kind) && c.observedGeneration <= f.generation
    ensures if c.kind == DEGRADED then c.observedGeneration >= Aggregate(s, f, now).observedGeneration
            else c.observedGeneration == Aggregate(s, f, now).observedGeneration
  {
    FindUnique(Aggregate(s, f, now).conditions, c);
    SetAllFound(s.conditions, TopLevel(f), f.generation, now, c.kind);
    WrittenKinds(f, c.kind);
  }

  lemma EntriesLockstep(prev: seq<ComponentConditions>, reports: seq<ComponentConditions>, generation: nat, now: Time)
    requires forall e | e in prev :: UniqueKinds(e.conditions)
    requires Sorted(reports, ByName()) && DistinctKeys(reports, ByName())
    ensures var entries := Entries(prev, reports, generation, now);
            && Sorted(entries, ByName()) && DistinctKeys(entries, ByName())
            && (forall e | e in entries :: UniqueKinds(e.conditions))
            && (forall e, c | e in entries && c in e.conditions :: c.observedGeneration == generation)
  {
    var entries := Entries(prev, reports, generation, now);
    forall i | 0 <= i < |entries|
      ensures UniqueKinds(entries[i].conditions)
      ensures forall c | c in entries[i].conditions :: c.observedGeneration == generation
    {
      MergeLockstep(Published(prev, reports[i].name), reports[i].conditions, generation, now);
    }
  }

  lemma SortedReports(reports: seq<ComponentConditions>)
    requires DistinctKeys(reports, ByName())
    ensures var r := SortBy(reports, ByName()); Sorted(r, ByName()) && DistinctKeys(r, ByName())
  {
    SortBySorts(reports, ByName());
    DistinctKeysPermute(reports, SortBy(reports, ByName()), ByName());
  }

  lemma AggregateLockstep(s: Status, f: Findings, now: Time)
    requires Lockstep(s) && UpTo(s, f.generation) && DistinctKeys(f.reports, ByName())
    ensures Lockstep(Aggregate(s, f, now)) && UpTo(Aggregate(s, f, now), f.generation)
  {
    var after := Aggregate(s, f, now);
    SetAllUnique(s.conditions, TopLevel(f), f.generation, now);
    forall c | c in after.conditions
      ensures Known(c.kind) && c.observedGeneration <= f.generation
      ensures if c.kind == DEGRADED then c.observedGeneration >= after.observedGeneration
              else c.observedGeneration == after.observedGeneration
    {
      ConditionLockstep(s, f, now, c);
    }
    if f.collected {
      SortedReports(f.reports);
      EntriesLockstep(s.components, SortBy(f.reports, ByName()), f.generation, now);
    }
  }

  /** Lockstep over every run: Available, Progressing and every component condition carry
      the generation in `observedGeneration`, Degraded carries at least that, types stay
      unique, and component entries stay sorted with unique names. */
  lemma {:induction false} RunLockstep(rounds: seq<Round>)
    requires Valid(rounds)
    ensures Lockstep(Run(rounds))
    ensures rounds != [] ==> UpTo(Run(rounds), rounds[|rounds| - 1].findings.generation)
  {
    if rounds == [] {
    } else {
      var n := |rounds| - 1;
      assert rounds[n] in rounds && forall r | r in rounds[..n] :: r in rounds;
      RunLockstep(rounds[..n]);
      AggregateLockstep(Run(rounds[..n]), rounds[n].findings, rounds[n].now);
    }
  }

  lemma SortedIsComparable(s: Status, f: Findings)
    requires Lockstep(s)
    ensures Comparable(s, f) == s
  {
    SortBySorts(s.components, ByName());
    SortResultUnique(s.components, SortBy(s.components, ByName()), ByName());
  }

  lemma PublishIsAggregate(s: Status, r: Round)
    requires Lockstep(s) && r.stored
    ensures Publish(s, r) == Aggregate(s, r.findings, r.now)
  {
    SortedIsComparable(s, r.findings);
  }

  /** Skipping the write never loses an update: on every reachable status the persisted
      result of a round whose write would succeed is the aggregate itself. */
  lemma SkippingLosesNothing(rounds: seq<Round>)
    requires Valid(rounds) && rounds != [] && rounds[|rounds| - 1].stored
    ensures var n := |rounds| - 1;
            Run(rounds) == Aggregate(Run(rounds[..n]), rounds[n].findings, rounds[n].now)
  {
    var n := |rounds| - 1;
    ValidPrefix(rounds);
    RunLockstep(rounds[..n]);
    PublishIsAggregate(Run(rounds[..n]), rounds[n]);
  }

  lemma ValidPrefix(rounds: seq<Round>)
    requires Valid(rounds) && rounds != []
    ensures Valid(rounds[..|rounds| - 1])
  {
  }

  // ----- transition times -----

  /** A status value and since when it has held. */
  datatype Streak = Streak(status: ConditionStatus, since: Time)

  function Extend(was: Option<Streak>, status: ConditionStatus, now: Time): Streak {
    if was.Some? && was.value.status == status then was.value else Streak(status, now)
  }

  function StreakOf(c: Option<Condition>): Option<Streak> {
    match c
    case None => None
    case Some(d) => Some(Streak(d.status, d.lastTransitionTime))
  }

  /** The history of a top-level condition, told without the published list: the streak of
      its current status begins at the first round that reported it. */
  function TopHistory(rounds: seq<Round>, kind: string): Option<Streak> {
    if |rounds| == 0 then None
    else
      var n := |rounds| - 1;
      var before, r := TopHistory(rounds[..n], kind), rounds[n];
      match if r.stored then Find(TopLevel(r.findings), kind) else None
      case None => before
      case Some(c) => Some(Extend(before, c.status, r.now))
  }

  /** The history of one component's condition, told from that component's reports alone. */
  function ComponentHistory(rounds: seq<Round>, name: string, kind: string): Option<Streak> {
    if |rounds| == 0 then None
    else
      var n := |rounds| - 1;
      var before, r := ComponentHistory(rounds[..n], name, kind), rounds[n];
      if !r.stored || !r.findings.collected then before else
      match Reported(r.findings.reports, name, kind)
      case None => None
      case Some(c) => Some(Extend(before, c.status, r.now))
  }

  function Reported(reports: seq<ComponentConditions>, name: string, kind: string): Option<Condition> {
    Find(Published(reports, name), kind)
  }

  lemma TopLevelUnstamped(f: Findings)
    ensures forall c | c in TopLevel(f) :: c.lastTransitionTime == 0
  {
    var flat := Flatten(f.reports);
    var t := TopLevel(f);
    assert t[0] == DegradedCondition(f.missing, f.failed);
    if f.collected {
      assert t[1] == AvailableRollup(flat) && t[2] == ProgressingRollup(flat);
      assert t == [t[0], t[1], t[2]];
    }
  }

  lemma TopStep(s: Status, f: Findings, now: Time, kind: string)
    ensures StreakOf(Find(Aggregate(s, f, now).conditions, kind)) ==
            match Find(TopLevel(f), kind)
            case None => StreakOf(Find(s.conditions, kind))
            case Some(c) => Some(Extend(StreakOf(Find(s.conditions, kind)), c.status, now))
  {
    TopLevelUnique(f);
    FindSetAll(s.conditions, TopLevel(f), f.generation, now, kind);
    TopLevelUnstamped(f);
  }

  /** Over every run a top-level condition is published with the status last reported for
      it and the time of the round that began the current streak of that status: its time
      changes only when its status does or it first appears. */
  lemma {:induction false} TopTimes(rounds: seq<Round>, kind: string)
    requires Valid(rounds)
    ensures StreakOf(Find(Run(rounds).conditions, kind)) == TopHistory(rounds, kind)
  {
    if rounds == [] {
    } else {
      var n := |rounds| - 1;
      assert forall q | q in rounds[..n] :: q in rounds;
      TopTimes(rounds[..n], kind);
      if rounds[n].stored {
        SkippingLosesNothing(rounds);
        TopStep(Run(rounds[..n]), rounds[n].findings, rounds[n].now, kind);
      }
    }
  }

  lemma FindLast(cs: seq<Condition>, kind: string)
    requires cs != []
    ensures var n := |cs| - 1;
            Find(cs, kind) == if Find(cs[..n], kind).Some? then Find(cs[..n], kind)
                              else if cs[n].kind == kind then Some(cs[n]) else None
  {
    var n := |cs| - 1;
    assert cs == cs[..n] + [cs[n]];
    FindAppend(cs[..n], cs[n], kind);
  }

  lemma {:induction false} FindSeed(prev: seq<Condition>, kinds: set<string>, kind: string)
    ensures Find(Seed(prev, kinds), kind) == if kind in kinds then Find(prev, kind) else None
  {
    if prev == [] {
    } else {
      var n := |prev| - 1;
      var t := Seed(prev[..n], kinds);
      FindSeed(prev[..n], kinds, kind);
      FindLast(prev, kind);
      if prev[n].kind in kinds {
        assert Seed(prev, kinds) == t + [prev[n]];
        FindAppend(t, prev[n], kind);
      } else {
        assert Seed(prev, kinds) == t + [] == t;
      }
    }
  }

  lemma {:induction false} FindEntries(prev: seq<ComponentConditions>, reports: seq<ComponentConditions>,
                                       generation: nat, now: Time, name: string)
    ensures FindEntry(Entries(prev, reports, generation, now), name) ==
            match FindEntry(reports, name)
            case None => None
            case Some(r) => Some(Entry(prev, r, generation, now))
  {
    if reports == [] {
    } else if reports[0].name != name {
      FindEntries(prev, reports[1..], generation, now, name);
      assert Entries(prev, reports, generation, now)[1..] == Entries(prev, reports[1..], generation, now);
    }
  }

  lemma FindEntrySorted(reports: seq<ComponentConditions>, name: string)
    requires DistinctKeys(reports, ByName())
    ensures FindEntry(SortBy(reports, ByName()), name) == FindEntry(reports, name)
  {
    var sorted := SortBy(reports, ByName());
    SortedReports(reports);
    forall r ensures r in sorted <==> r in reports {
      assert r in multiset(sorted) <==> r in multiset(reports);
    }
    if FindEntry(reports, name).Some? {
      var x, y := FindEntry(reports, name).value, FindEntry(sorted, name).value;
      var i :| 0 <= i < |sorted| && sorted[i] == x;
      var j :| 0 <= j < |sorted| && sorted[j] == y;
      assert i == j;
    }
  }

  lemma MergeStep(prev: seq<Condition>, reported: seq<Condition>, generation: nat, now: Time, kind: string)
    requires UniqueKinds(reported) && forall c | c in reported :: c.lastTransitionTime == 0
    ensures StreakOf(Find(Merge(prev, reported, generation, now), kind)) ==
            match Find(reported, kind)
            case None => None
            case Some(c) => Some(Extend(StreakOf(Find(prev, kind)), c.status, now))
  {
    FindSetAll(Seed(prev, Kinds(reported)), reported, generation, now, kind);
    FindSeed(prev, Kinds(reported), kind);
  }

  lemma ComponentStep(s: Status, f: Findings, now: Time, name: string, kind: string)
    requires WellFormed(f.reports) && f.collected
    ensures StreakOf(Reported(Aggregate(s, f, now).components, name, kind)) ==
            match Reported(f.reports, name, kind)
            case None => None
            case Some(c) => Some(Extend(StreakOf(Reported(s.components, name, kind)), c.status, now))
  {
    FindEntries(s.components, SortBy(f.reports, ByName()), f.generation, now, name);
    FindEntrySorted(f.reports, name);
    if FindEntry(f.reports, name).Some? {
      var r := FindEntry(f.reports, name).value;
      MergeStep(Published(s.components, name), r.conditions, f.generation, now, kind);
    }
  }

  /** Over every run, a component's condition is published with the time at which that
      component began to report its current status without interruption, whatever other
      components reported and however many reconciles aborted or lost their write since. */
  lemma {:induction false} ComponentTimes(rounds: seq<Round>, name: string, kind: string)
    requires Valid(rounds)
    ensures StreakOf(Reported(Run(rounds).components, name, kind)) == ComponentHistory(rounds, name, kind)
  {
    if rounds == [] {
    } else {
      var n := |rounds| - 1;
      assert rounds[n] in rounds && forall q | q in rounds[..n] :: q in rounds;
      ComponentTimes(rounds[..n], name, kind);
      if rounds[n].stored {
        SkippingLosesNothing(rounds);
        if rounds[n].findings.collected {
          ComponentStep(Run(rounds[..n]), rounds[n].findings, rounds[n].now, name, kind);
        }
      }
    }
  }

  // ----- repeating and reordering -----

  /** The same component with its conditions in another order. */
  ghost predicate SameUpToOrder(a: seq<ComponentConditions>, b: seq<ComponentConditions>) {
    && |a| == |b|
    && forall i | 0 <= i < |a| :: a[i].name == b[i].name && multiset(a[i].conditions) == multiset(b[i].conditions)
  }

  lemma PermutedFind(a: seq<Condition>, b: seq<Condition>, kind: string)
    requires UniqueKinds(a) && UniqueKinds(b) && multiset(a) == multiset(b)
    ensures Find(a, kind) == Find(b, kind)
  {
    assert forall c :: (c in a <==> c in multiset(a)) && (c in b <==> c in multiset(b));
    if Find(a, kind).Some? {
      FindUnique(b, Find(a, kind).value);
    }
  }

  lemma {:induction false} UnexpectedIsFound(cs: seq<Condition>, kind: string, expected: ConditionStatus)
    requires UniqueKinds(cs)
    ensures FirstUnexpected(kind, cs, expected) ==
            if Find(cs, kind).Some? && Find(cs, kind).value.status != expected then Find(cs, kind) else None
  {
  }

  lemma {:induction false} UnexpectedAppend(a: seq<Condition>, b: seq<Condition>, kind: string,
                                            expected: ConditionStatus)
    ensures FirstUnexpected(kind, a + b, expected) ==
            if FirstUnexpected(kind, a, expected).Some? then FirstUnexpected(kind, a, expected)
            else FirstUnexpected(kind, b, expected)
  {
    if a == [] {
      assert a + b == b;
    } else {
      assert (a + b)[1..] == a[1..] + b;
      UnexpectedAppend(a[1..], b, kind, expected);
    }
  }

  lemma ReportReorder(a: seq<Condition>, b: seq<Condition>, kind: string, expected: ConditionStatus)
    requires UniqueKinds(a) && UniqueKinds(b) && multiset(a) == multiset(b)
    ensures FirstUnexpected(kind, a, expected) == FirstUnexpected(kind, b, expected)
  {
    UnexpectedIsFound(a, kind, expected);
    UnexpectedIsFound(b, kind, expected);
    PermutedFind(a, b, kind);
  }

  /** The roll-up reads each component's list as a set of types. */
  lemma {:induction false} RollupReorder(a: seq<ComponentConditions>, b: seq<ComponentConditions>,
                                         kind: string, expected: ConditionStatus)
    requires SameUpToOrder(a, b)
    requires forall i | 0 <= i < |a| :: UniqueKinds(a[i].conditions) && UniqueKinds(b[i].conditions)
    ensures FirstUnexpected(kind, Flatten(a), expected) == FirstUnexpected(kind, Flatten(b), expected)
  {
    if a == [] {
    } else {
      var n := |a| - 1;
      RollupReorder(a[..n], b[..n], kind, expected);
      UnexpectedAppend(Flatten(a[..n]), a[n].conditions, kind, expected);
      UnexpectedAppend(Flatten(b[..n]), b[n].conditions, kind, expected);
      ReportReorder(a[n].conditions, b[n].conditions, kind, expected);
    }
  }

  lemma TopLevelReorder(f: Findings, g: Findings)
    requires g == f.(reports := g.reports) && SameUpToOrder(f.reports, g.reports)
    requires forall r | r in f.reports || r in g.reports :: UniqueKinds(r.conditions)
    ensures TopLevel(f) == TopLevel(g)
  {
    RollupReorder(f.reports, g.reports, AVAILABLE, True);
    RollupReorder(f.reports, g.reports, PROGRESSING, False);
  }

  lemma WrittenThenAgrees(cs: seq<Condition>, reported: seq<Condition>, generation: nat, now: Time, c: Condition)
    requires UniqueKinds(reported) && c in reported
    ensures Agrees(SetAll(cs, reported, generation, now), c, generation)
  {
    FindUnique(reported, c);
    FindSetAll(cs, reported, generation, now, c.kind);
  }

  /** A second write of a list, in whatever order, finds nothing to change. */
  lemma SetAllTwice(cs: seq<Condition>, r: seq<Condition>, q: seq<Condition>, generation: nat, now: Time, later: Time)
    requires UniqueKinds(r) && forall c | c in q :: c in r
    ensures var once := SetAll(cs, r, generation, now); SetAll(once, q, generation, later) == once
  {
    var once := SetAll(cs, r, generation, now);
    forall c | c in q ensures Agrees(once, c, generation) {
      WrittenThenAgrees(cs, r, generation, now, c);
    }
    SetAllAgrees(once, q, generation, later);
  }

  lemma SeedNext(init: seq<Condition>, last: Condition, kinds: set<string>)
    requires last.kind in kinds && Seed(init, kinds) == init
    ensures Seed(init + [last], kinds) == init + [last]
  {
    assert (init + [last])[..|init|] == init;
  }

  lemma {:induction false} SeedAll(prev: seq<Condition>, kinds: set<string>)
    requires forall i | 0 <= i < |prev| :: prev[i].kind in kinds
    ensures Seed(prev, kinds) == prev
  {
    if prev == [] {
    } else {
      var init, last := prev[..|prev| - 1], prev[|prev| - 1];
      SeedAll(init, kinds);
      SeedNext(init, last, kinds);
      assert prev == init + [last];
    }
  }

  lemma MergedKinds(prev: seq<Condition>, r: seq<Condition>, generation: nat, now: Time, c: Condition)
    requires UniqueKinds(prev) && c in Merge(prev, r, generation, now)
    ensures c.kind in Kinds(r)
  {
    var seeded := Seed(prev, Kinds(r));
    MergeLockstep(prev, r, generation, now);
    FindUnique(Merge(prev, r, generation, now), c);
    SetAllFound(seeded, r, generation, now, c.kind);
  }

  lemma MergeTwice(prev: seq<Condition>, r: seq<Condition>, q: seq<Condition>, generation: nat, now: Time, later: Time)
    requires UniqueKinds(prev) && UniqueKinds(r) && forall c :: c in r <==> c in q
    ensures var once := Merge(prev, r, generation, now); Merge(once, q, generation, later) == once
  {
    var once := Merge(prev, r, generation, now);
    forall c | c in once ensures c.kind in Kinds(q) {
      MergedKinds(prev, r, generation, now, c);
      assert Kinds(r) == Kinds(q);
    }
    SeedAll(once, Kinds(q));
    SetAllTwice(Seed(prev, Kinds(r)), r, q, generation, now, later);
  }

  lemma {:induction false} InsertSame(x: ComponentConditions, y: ComponentConditions,
                                      a: seq<ComponentConditions>, b: seq<ComponentConditions>)
    requires SameUpToOrder([x], [y]) && SameUpToOrder(a, b)
    ensures SameUpToOrder(Insert(x, a, ByName()), Insert(y, b, ByName()))
  {
    assert [x][0].name == [y][0].name && multiset([x][0].conditions) == multiset([y][0].conditions);
    if a == [] {
    } else if !Leq(x.name, a[0].name) {
      InsertSame(x, y, a[1..], b[1..]);
    }
  }

  lemma {:induction false} SortSame(a: seq<ComponentConditions>, b: seq<ComponentConditions>)
    requires SameUpToOrder(a, b)
    ensures SameUpToOrder(SortBy(a, ByName()), SortBy(b, ByName()))
  {
    if a == [] {
    } else {
      SortSame(a[1..], b[1..]);
      assert SameUpToOrder([a[0]], [b[0]]);
      InsertSame(a[0], b[0], SortBy(a[1..], ByName()), SortBy(b[1..], ByName()));
    }
  }

  lemma PublishedAt(entries: seq<ComponentConditions>, i: nat)
    requires DistinctKeys(entries, ByName()) && i < |entries|
    ensures Published(entries, entries[i].name) == entries[i].conditions
  {
  }

  lemma EntriesTwice(prev: seq<ComponentConditions>, a: seq<ComponentConditions>, b: seq<ComponentConditions>,
                     generation: nat, now: Time, later: Time)
    requires (forall e | e in prev :: UniqueKinds(e.conditions)) && SameUpToOrder(a, b)
    requires forall r | r in a :: UniqueKinds(r.conditions)
    requires DistinctKeys(Entries(prev, a, generation, now), ByName())
    ensures var once := Entries(prev, a, generation, now); Entries(once, b, generation, later) == once
  {
    var once := Entries(prev, a, generation, now);
    forall i | 0 <= i < |once| ensures Entry(once, b[i], generation, later) == once[i] {
      PublishedAt(once, i);
      assert a[i] in a;
      assert forall c :: (c in a[i].conditions <==> c in multiset(a[i].conditions))
                      && (c in b[i].conditions <==> c in multiset(b[i].conditions));
      MergeTwice(Published(prev, a[i].name), a[i].conditions, b[i].conditions, generation, now, later);
    }
  }

  lemma SortedMembers(reports: seq<ComponentConditions>, r: ComponentConditions)
    ensures r in SortBy(reports, ByName()) <==> r in reports
  {
    assert r in multiset(SortBy(reports, ByName())) <==> r in multiset(reports);
  }

  /** A repeated update reports no change and makes none, at whatever later time, even when
      every component's report lists its conditions in another order. */
  lemma RepeatChangesNothing(s: Status, f: Findings, g: Findings, now: Time, later: Time)
    requires Lockstep(s) && UpTo(s, f.generation)
    requires g == f.(reports := g.reports) && SameUpToOrder(f.reports, g.reports)
    requires WellFormed(f.reports) && WellFormed(g.reports)
    ensures var once := Aggregate(s, f, now);
            Aggregate(once, g, later) == once && !Changed(once, g, later)
  {
    var once := Aggregate(s, f, now);
    AggregateLockstep(s, f, now);
    SortedIsComparable(once, g);
    forall i | 0 <= i < |f.reports|
      ensures UniqueKinds(f.reports[i].conditions) && UniqueKinds(g.reports[i].conditions)
    {
      assert f.reports[i] in f.reports && g.reports[i] in g.reports;
    }
    TopLevelReorder(f, g);
    TopLevelUnique(f);
    SetAllTwice(s.conditions, TopLevel(f), TopLevel(f), f.generation, now, later);
    if f.collected {
      SortSame(f.reports, g.reports);
      forall r | r in SortBy(f.reports, ByName()) ensures UniqueKinds(r.conditions) {
        SortedMembers(f.reports, r);
      }
      EntriesTwice(s.components, SortBy(f.reports, ByName()), SortBy(g.reports, ByName()), f.generation, now, later);
    }
  }

  // ----- order of the components -----

  lemma {:induction false} FlattenMembers(reports: seq<ComponentConditions>, c: Condition)
    ensures c in Flatten(reports) <==> exists r :: r in reports && c in r.conditions
  {
    if reports == [] {
    } else {
      var n := |reports| - 1;
      FlattenMembers(reports[..n], c);
      assert forall r :: r in reports <==> r in reports[..n] || r == reports[n];
    }
  }

  /** The order in which components are reconciled is visible in no published status value
      of the roll-up that is the expected one, and nowhere in the component list. */
  lemma OrderOfComponents(s: Status, f: Findings, g: Findings, now: Time)
    requires f.collected && g == f.(reports := g.reports) && multiset(f.reports) == multiset(g.reports)
    requires DistinctKeys(f.reports, ByName())
    ensures AvailableRollup(Flatten(f.reports)).status == True <==> AvailableRollup(Flatten(g.reports)).status == True
    ensures ProgressingRollup(Flatten(f.reports)).status == False <==>
            ProgressingRollup(Flatten(g.reports)).status == False
    ensures Aggregate(s, f, now).components == Aggregate(s, g, now).components
  {
    forall c ensures c in Flatten(f.reports) <==> c in Flatten(g.reports) {
      FlattenMembers(f.reports, c);
      FlattenMembers(g.reports, c);
      assert forall r :: r in f.reports <==> r in multiset(f.reports);
      assert forall r :: r in g.reports <==> r in multiset(g.reports);
    }
    SortByPermutation(f.reports, g.reports, ByName());
  }

  // ----- rolled out implies available -----

  /** A report in which Progressing=False comes with Available=True. */
  predicate RolledOutIsAvailable(conditions: seq<Condition>) {
    var p, a := Find(conditions, PROGRESSING), Find(conditions, AVAILABLE);
    p.Some? && a.Some? && (p.value.status == False ==> a.value.status == True)
  }

  lemma RollupRolledOut(reports: seq<ComponentConditions>)
    requires WellFormed(reports) && forall r | r in reports :: RolledOutIsAvailable(r.conditions)
    ensures ProgressingRollup(Flatten(reports)).status == False ==> AvailableRollup(Flatten(reports)).status == True
  {
    var flat := Flatten(reports);
    if forall d | d in flat && d.kind == PROGRESSING :: d.status == False {
      forall d | d in flat && d.kind == AVAILABLE ensures d.status == True {
        FlattenMembers(reports, d);
        var r :| r in reports && d in r.conditions;
        FindUnique(r.conditions, d);
        FlattenMembers(reports, Find(r.conditions, PROGRESSING).value);
      }
    }
  }

  predicate TopRolledOut(s: Status) {
    var p, a := Find(s.conditions, PROGRESSING), Find(s.conditions, AVAILABLE);
    (p.Some? <==> a.Some?) && (p.Some? && p.value.status == False ==> a.value.status == True)
  }

  lemma AggregateRolledOut(s: Status, f: Findings, now: Time)
    requires WellFormed(f.reports) && forall r | r in f.reports :: RolledOutIsAvailable(r.conditions)
    requires TopRolledOut(s)
    ensures TopRolledOut(Aggregate(s, f, now))
  {
    TopLevelUnique(f);
    var t := TopLevel(f);
    FindSetAll(s.conditions, t, f.generation, now, PROGRESSING);
    FindSetAll(s.conditions, t, f.generation, now, AVAILABLE);
    TopLevelFinds(f);
    RollupRolledOut(f.reports);
    WrittenRolledOut(s.conditions, Aggregate(s, f, now).conditions, Find(t, PROGRESSING), Find(t, AVAILABLE),
      f.generation, now);
  }

  function Overlaid(before: Option<Condition>, reported: Option<Condition>, generation: nat,
                    now: Time): Option<Condition> {
    match reported
    case Some(c) => Some(Written(before, c.(observedGeneration := generation), now))
    case None => before
  }

  lemma WrittenRolledOut(before: seq<Condition>, after: seq<Condition>, p: Option<Condition>, a: Option<Condition>,
                         generation: nat, now: Time)
    requires TopRolledOut(Status(0, before, [])) && (p.Some? <==> a.Some?)
    requires p.Some? && p.value.status == False ==> a.value.status == True
    requires Find(after, PROGRESSING) == Overlaid(Find(before, PROGRESSING), p, generation, now)
    requires Find(after, AVAILABLE) == Overlaid(Find(before, AVAILABLE), a, generation, now)
    ensures TopRolledOut(Status(0, after, []))
  {
  }

  /** If every component reports so, every status reachable in any run that publishes
      Progressing=False publishes Available=True, aborted reconciles included. */
  lemma {:induction false} RunRolledOut(rounds: seq<Round>)
    requires Valid(rounds)
    requires forall q, r | q in rounds && r in q.findings.reports :: RolledOutIsAvailable(r.conditions)
    ensures TopRolledOut(Run(rounds))
  {
    if rounds == [] {
    } else {
      var n := |rounds| - 1;
      assert rounds[n] in rounds && forall q | q in rounds[..n] :: q in rounds;
      RunRolledOut(rounds[..n]);
      AggregateRolledOut(Run(rounds[..n]), rounds[n].findings, rounds[n].now);
    }
  }

  lemma TopLevelFinds(f: Findings)
    ensures Find(TopLevel(f), PROGRESSING) == if f.collected then Some(ProgressingRollup(Flatten(f.reports))) else None
    ensures Find(TopLevel(f), AVAILABLE) == if f.collected then Some(AvailableRollup(Flatten(f.reports))) else None
    ensures Find(TopLevel(f), DEGRADED) == Some(DegradedCondition(f.missing, f.failed))
  {
  }
}
