/** The list of missing Secrets a reconcile publishes: sorted and exact when every read
    succeeds, and exactly how far it falls short when one does not. */
module MissingSecrets {
  import opened Strings
  import opened Sorting
  import opened ConfigHash
  import opened Operands
  import opened Rollouts
  import opened Controller
  import Bundle
  import Discovery
  import Stamping
  import StatusRuns
  import A = ApiComponent
  import S = SentinelComponent

  predicate ReadFails(c: Bundle.Component, given: Inputs) {
    SecretReadFails(given, Bundle.Name(c), Bundle.ReferencedSecrets(c, given.cr.spec))
  }

  /** The first of `n` numbers that satisfies `p`, or `n`. */
  function First(n: nat, p: nat -> bool): (i: nat)
    ensures i <= n && (forall j | 0 <= j < i :: !p(j)) && (i < n ==> p(i))
  {
    if n == 0 then 0
    else
      var i := First(n - 1, p);
      if i < n - 1 || p(n - 1) then i else n
  }

  /** The first component with a failing read, or their number if there is none. */
  function FirstFailing(cs: seq<Bundle.Component>, given: Inputs): (i: nat)
    ensures i <= |cs| && (forall j | 0 <= j < i :: !ReadFails(cs[j], given))
    ensures i < |cs| ==> ReadFails(cs[i], given)
  {
    var fails := (j: nat) => j < |cs| && ReadFails(cs[j], given);
    var i := First(|cs|, fails);
    assert forall j | 0 <= j < i :: !ReadFails(cs[j], given) by {
      forall j | 0 <= j < i ensures !ReadFails(cs[j], given) {
        assert !fails(j);
      }
    }
    i
  }

  lemma FirstFailingIff(cs: seq<Bundle.Component>, given: Inputs)
    ensures SomeReadFails(cs, given) <==> FirstFailing(cs, given) < |cs|
  {
    if FirstFailing(cs, given) < |cs| {
      assert cs[FirstFailing(cs, given)] in cs;
    }
  }

  lemma NoneFails(cs: seq<Bundle.Component>, given: Inputs)
    requires forall j | 0 <= j < |cs| :: !ReadFails(cs[j], given)
    ensures !SomeReadFails(cs, given)
  {
    forall c | c in cs ensures !ReadFails(c, given) {
      var j :| 0 <= j < |cs| && cs[j] == c;
    }
  }

  lemma PrefixGathered(cs: seq<Bundle.Component>, i: nat, secrets: map<string, string>, given: Inputs)
    requires i <= |cs| && forall j | 0 <= j < i :: !ReadFails(cs[j], given)
    ensures Gathered(cs[..i], secrets, given).1
  {
    NoneFails(cs[..i], given);
    GatheredIff(cs[..i], secrets, given);
  }

  lemma StopsHere(cs: seq<Bundle.Component>, i: nat, secrets: map<string, string>, given: Inputs)
    requires i < |cs| && Gathered(cs[..i], secrets, given).1 && ReadFails(cs[i], given)
    ensures Gathered(cs, secrets, given) == (Gathered(cs[..i], secrets, given).0, false)
  {
    var next := i + 1;
    GatheredNext(cs, i, secrets, given);
    assert !Gathered(cs[..next], secrets, given).1;
    GatheredStops(cs, next, secrets, given);
  }

  /** The loop stops at the first failing read with what it collected before. */
  lemma GatheredStopsAt(cs: seq<Bundle.Component>, secrets: map<string, string>, given: Inputs)
    ensures var i := FirstFailing(cs, given);
            Gathered(cs, secrets, given) == (Gathered(cs[..i], secrets, given).0, i == |cs|)
            && Gathered(cs[..i], secrets, given).1
  {
    var i := FirstFailing(cs, given);
    PrefixGathered(cs, i, secrets, given);
    if i < |cs| {
      StopsHere(cs, i, secrets, given);
    } else {
      assert cs[..i] == cs;
    }
  }

  // ----- the published list -----

  /** What the Degraded condition is given. */
  ghost function Published(fn: Functions, w: World, given: Inputs): seq<string> {
    Body(fn, w, given).findings.missing
  }

  lemma PublishedIs(fn: Functions, w: World, given: Inputs)
    requires Bundle.Resolved(given.cr.spec.bundle, w.config).Ok?
    ensures var cs := Bundle.Resolved(given.cr.spec.bundle, w.config).value;
            var i := FirstFailing(cs, given);
            Published(fn, w, given) ==
            if i < |cs| then Gathered(cs[..i], w.secrets, given).0 else OrderedSet(Gathered(cs, w.secrets, given).0)
  {
    GatheredStopsAt(Bundle.Resolved(given.cr.spec.bundle, w.config).value, w.secrets, given);
  }

  /** Strictly increasing, and exactly the roles of the bundle whose Secret does not exist. */
  ghost predicate SortedAndExact(list: seq<string>, cs: seq<Bundle.Component>, secrets: map<string, string>,
                                 spec: Spec) {
    StrictlyIncreasing(list) && forall role :: role in list <==> RoleMissing(cs, secrets, spec, role)
  }

  /** When no Secret read fails, the published list is strictly increasing and is exactly the set
      of roles whose Secret does not exist, whatever else fails in the reconcile. */
  lemma MissingIsExact(fn: Functions, w: World, given: Inputs)
    requires Bundle.Resolved(given.cr.spec.bundle, w.config).Ok?
    requires !SomeReadFails(Bundle.Resolved(given.cr.spec.bundle, w.config).value, given)
    ensures SortedAndExact(Published(fn, w, given), Bundle.Resolved(given.cr.spec.bundle, w.config).value,
                           w.secrets, given.cr.spec)
  {
    var cs := Bundle.Resolved(given.cr.spec.bundle, w.config).value;
    GatheredIff(cs, w.secrets, given);
    FirstFailingIff(cs, given);
    PublishedIs(fn, w, given);
    OrderedSetIsOrdered(Gathered(cs, w.secrets, given).0);
    forall role ensures role in Gathered(cs, w.secrets, given).0 <==> RoleMissing(cs, w.secrets, given.cr.spec, role) {
      GatheredMissing(cs, w.secrets, given, role);
    }
  }

  /** When a read fails, the published list holds exactly the roles missing among the components
      before the first failing one. */
  lemma AbortListsPrefix(fn: Functions, w: World, given: Inputs, role: string)
    requires Bundle.Resolved(given.cr.spec.bundle, w.config).Ok?
    requires SomeReadFails(Bundle.Resolved(given.cr.spec.bundle, w.config).value, given)
    ensures var cs := Bundle.Resolved(given.cr.spec.bundle, w.config).value;
            role in Published(fn, w, given) <==>
            RoleMissing(cs[..FirstFailing(cs, given)], w.secrets, given.cr.spec, role)
  {
    var cs := Bundle.Resolved(given.cr.spec.bundle, w.config).value;
    FirstFailingIff(cs, given);
    PublishedIs(fn, w, given);
    GatheredStopsAt(cs, w.secrets, given);
    GatheredMissing(cs[..FirstFailing(cs, given)], w.secrets, given, role);
  }

  // ----- the list of the cloud-capi bundle -----

  /** Which of the four Secrets the bundle refers to are absent. */
  datatype Absent = Absent(database: bool, tls: bool, jwks: bool, broker: bool)

  function AbsentSecrets(spec: Spec, broker: S.BrokerInfo, secrets: map<string, string>): Absent {
    Absent(spec.databaseSecret !in secrets,
           spec.tlsSecret.Some? && spec.tlsSecret.value !in secrets,
           A.AuthEnabled(spec) && spec.auth.jwkCertSecret.Some? && spec.auth.jwkCertSecret.value !in secrets,
           broker.brokerType == S.RABBITMQ && S.BROKER_SECRET !in secrets)
  }

  function If(b: bool, role: string): seq<string> {
    if b then [role] else []
  }

  /** The roles of the API in the order of its references: `jwks` after `tls`. */
  function ApiRoles(a: Absent): seq<string> {
    If(a.database, "database") + If(a.tls, "tls") + If(a.jwks, "jwks")
  }

  function BrokerRoles(a: Absent, n: nat): seq<string> {
    seq(if a.broker then n else 0, _ => "broker")
  }

  /** What the loop has collected after `i` components: the API's roles, then one per Sentinel. */
  function Collected(a: Absent, i: nat): seq<string> {
    if i == 0 then [] else ApiRoles(a) + BrokerRoles(a, i - 1)
  }

  lemma {:induction false} MissingAppend(a: seq<HashEntry>, b: seq<HashEntry>)
    ensures Missing(a + b) == Missing(a) + Missing(b)
  {
    if b == [] {
      assert a + b == a;
    } else {
      var n := |b| - 1;
      assert (a + b)[..|a + b| - 1] == a + b[..n] && (a + b)[|a + b| - 1] == b[n];
      MissingAppend(a, b[..n]);
    }
  }

  lemma EntriesAppend(secrets: map<string, string>, a: seq<SecretReference>, b: seq<SecretReference>)
    ensures Stamping.EntriesFor(secrets, a + b) == Stamping.EntriesFor(secrets, a) + Stamping.EntriesFor(secrets, b)
  {
  }

  function RefIf(present: bool, role: string, secret: string): seq<SecretReference> {
    if present then [SecretReference(role, secret)] else []
  }

  lemma MissingOne(secrets: map<string, string>, present: bool, role: string, secret: string)
    ensures Missing(Stamping.EntriesFor(secrets, RefIf(present, role, secret))) ==
            If(present && secret !in secrets, role)
  {
    var e := Stamping.EntryFor(secrets, SecretReference(role, secret));
    assert Stamping.EntriesFor(secrets, [SecretReference(role, secret)]) == [e] && [e][..0] == [];
  }

  lemma MissingOfSum(secrets: map<string, string>, a: seq<SecretReference>, b: seq<SecretReference>)
    ensures Missing(Stamping.EntriesFor(secrets, a + b)) ==
            Missing(Stamping.EntriesFor(secrets, a)) + Missing(Stamping.EntriesFor(secrets, b))
  {
    EntriesAppend(secrets, a, b);
    MissingAppend(Stamping.EntriesFor(secrets, a), Stamping.EntriesFor(secrets, b));
  }

  function ApiRefs(spec: Spec): seq<SecretReference> {
    var pinned := A.AuthEnabled(spec) && spec.auth.jwkCertSecret.Some?;
    RefIf(true, "database", spec.databaseSecret)
    + RefIf(spec.tlsSecret.Some?, "tls", if spec.tlsSecret.Some? then spec.tlsSecret.value else "")
    + RefIf(pinned, "jwks", if pinned then spec.auth.jwkCertSecret.value else "")
  }

  lemma ApiRefsAre(spec: Spec)
    ensures A.ReferencedSecrets(spec) == ApiRefs(spec)
  {
  }

  lemma ThreeCollected(secrets: map<string, string>, d: seq<SecretReference>, t: seq<SecretReference>,
                       j: seq<SecretReference>)
    ensures Missing(Stamping.EntriesFor(secrets, d + t + j)) ==
            Missing(Stamping.EntriesFor(secrets, d)) + Missing(Stamping.EntriesFor(secrets, t))
            + Missing(Stamping.EntriesFor(secrets, j))
  {
    MissingOfSum(secrets, d, t);
    MissingOfSum(secrets, d + t, j);
  }

  lemma ApiCollects(spec: Spec, broker: S.BrokerInfo, secrets: map<string, string>)
    ensures Missing(Stamping.EntriesFor(secrets, A.ReferencedSecrets(spec))) ==
            ApiRoles(AbsentSecrets(spec, broker, secrets))
  {
    var pinned := A.AuthEnabled(spec) && spec.auth.jwkCertSecret.Some?;
    var tls := if spec.tlsSecret.Some? then spec.tlsSecret.value else "";
    var jwks := if pinned then spec.auth.jwkCertSecret.value else "";
    ApiRefsAre(spec);
    ThreeCollected(secrets, RefIf(true, "database", spec.databaseSecret),
      RefIf(spec.tlsSecret.Some?, "tls", tls), RefIf(pinned, "jwks", jwks));
    MissingOne(secrets, true, "database", spec.databaseSecret);
    MissingOne(secrets, spec.tlsSecret.Some?, "tls", tls);
    MissingOne(secrets, pinned, "jwks", jwks);
  }

  lemma SentinelCollects(spec: Spec, broker: S.BrokerInfo, secrets: map<string, string>)
    ensures Missing(Stamping.EntriesFor(secrets, S.ReferencedSecrets(broker))) ==
            If(AbsentSecrets(spec, broker, secrets).broker, "broker")
  {
    MissingOne(secrets, broker.brokerType == S.RABBITMQ, "broker", S.BROKER_SECRET);
    assert S.ReferencedSecrets(broker) == RefIf(broker.brokerType == S.RABBITMQ, "broker", S.BROKER_SECRET);
  }

  /** An API component followed by Sentinels of one broker. */
  predicate IsTier(cs: seq<Bundle.Component>, broker: S.BrokerInfo) {
    forall i | 0 <= i < |cs| :: if i == 0 then cs[i].Api? else cs[i].Sentinel? && cs[i].broker == broker
  }

  lemma CollectedNext(a: Absent, i: nat)
    requires i > 0
    ensures Collected(a, i + 1) == Collected(a, i) + If(a.broker, "broker")
  {
    assert BrokerRoles(a, i) == BrokerRoles(a, i - 1) + If(a.broker, "broker");
  }

  lemma GatheredLast(cs: seq<Bundle.Component>, secrets: map<string, string>, given: Inputs)
    requires cs != [] && Gathered(cs, secrets, given).1
    ensures var n := |cs| - 1;
            && Gathered(cs[..n], secrets, given).1
            && Gathered(cs, secrets, given).0 == Gathered(cs[..n], secrets, given).0
                 + Missing(Stamping.EntriesFor(secrets, Bundle.ReferencedSecrets(cs[n], given.cr.spec)))
  {
  }

  lemma {:induction false} TierCollects(cs: seq<Bundle.Component>, broker: S.BrokerInfo, secrets: map<string, string>,
                                        given: Inputs)
    requires IsTier(cs, broker) && Gathered(cs, secrets, given).1
    ensures Gathered(cs, secrets, given).0 == Collected(AbsentSecrets(given.cr.spec, broker, secrets), |cs|)
  {
    var n := |cs| - 1;
    if cs == [] {
    } else {
      GatheredLast(cs, secrets, given);
      TierCollects(cs[..n], broker, secrets, given);
      if n == 0 {
        ApiCollects(given.cr.spec, broker, secrets);
      } else {
        SentinelCollects(given.cr.spec, broker, secrets);
        CollectedNext(AbsentSecrets(given.cr.spec, broker, secrets), n);
      }
    }
  }

  lemma ResolvedIsTier(config: Bundle.Config, spec: Spec)
    requires Bundle.Resolved(spec.bundle, config).Ok?
    ensures config.broker.Some? && IsTier(Bundle.Resolved(spec.bundle, config).value, config.broker.value)
    ensures |Bundle.Resolved(spec.bundle, config).value| == 6
  {
  }

  // ----- when an aborted list is sorted and exact -----

  lemma RoleOrder()
    ensures Leq("broker", "database") && Leq("database", "jwks") && Leq("database", "tls") && Leq("jwks", "tls")
    ensures !Leq("database", "broker") && !Leq("jwks", "broker") && !Leq("tls", "broker") && !Leq("tls", "jwks")
    ensures "database" != "jwks" && "database" != "tls"
  {
    assert "broker"[0] < "database"[0] < "jwks"[0] < "tls"[0];
  }

  lemma ApiRolesSorted(a: Absent)
    ensures StrictlyIncreasing(ApiRoles(a)) <==> !(a.tls && a.jwks)
  {
    RoleOrder();
    var r := ApiRoles(a);
    if a.tls && a.jwks {
      assert r[|r| - 2] == "tls" && r[|r| - 1] == "jwks";
    }
  }

  /** The list collected before component `i` is strictly increasing exactly then. */
  predicate CollectedInOrder(a: Absent, i: nat) {
    if i >= 2 && a.broker then i == 2 && !a.database && !a.tls && !a.jwks
    else i == 0 || !(a.tls && a.jwks)
  }

  lemma ApiRoleAfterBroker(a: Absent, k: nat)
    requires k < |ApiRoles(a)|
    ensures !Leq(ApiRoles(a)[k], "broker")
  {
    RoleOrder();
  }

  lemma CollectedSorted(a: Absent, i: nat)
    ensures StrictlyIncreasing(Collected(a, i)) <==> CollectedInOrder(a, i)
  {
    var r, b := ApiRoles(a), BrokerRoles(a, if i == 0 then 0 else i - 1);
    ApiRolesSorted(a);
    if i >= 2 && a.broker {
      var c := Collected(a, i);
      assert c[|r|] == "broker";
      if |r| > 0 {
        ApiRoleAfterBroker(a, 0);
        assert c[0] == r[0];
      } else if i > 2 {
        assert c[|r| + 1] == "broker";
      }
    } else if i > 0 {
      assert Collected(a, i) == r;
    }
  }

  predicate RoleAbsent(a: Absent, role: string) {
    || (role == "database" && a.database) || (role == "tls" && a.tls)
    || (role == "jwks" && a.jwks) || (role == "broker" && a.broker)
  }

  lemma CollectedHolds(a: Absent, i: nat, role: string)
    ensures role in Collected(a, i) <==>
            RoleAbsent(a, role) && if role == "broker" then i >= 2 else i >= 1
  {
    RoleOrder();
    var r := ApiRoles(a);
    assert role in r <==> RoleAbsent(a, role) && role != "broker" by {
      assert role in r <==>
             role in If(a.database, "database") || role in If(a.tls, "tls") || role in If(a.jwks, "jwks");
    }
    if i >= 2 && a.broker {
      assert BrokerRoles(a, i - 1)[0] == "broker";
    }
  }

  lemma TierMissing(cs: seq<Bundle.Component>, w: World, given: Inputs, broker: S.BrokerInfo, role: string)
    requires IsTier(cs, broker) && |cs| >= 2
    ensures RoleMissing(cs, w.secrets, given.cr.spec, role) <==>
            RoleAbsent(AbsentSecrets(given.cr.spec, broker, w.secrets), role)
  {
    var quiet := given.(secretFails := (name, secret) => false);
    GatheredIff(cs, w.secrets, quiet);
    TierCollects(cs, broker, w.secrets, quiet);
    GatheredMissing(cs, w.secrets, quiet, role);
    CollectedHolds(AbsentSecrets(given.cr.spec, broker, w.secrets), |cs|, role);
  }

  /** The published list is as promised: every read succeeded, or the first failing one came late
      enough for every absent role to be collected and early enough for the order to be right. */
  predicate ListIsRight(a: Absent, i: nat, n: nat) {
    || i == n
    || (i == 0 && a == Absent(false, false, false, false))
    || (i == 1 && !a.broker && !(a.tls && a.jwks))
    || (i == 2 && a == Absent(false, false, false, true))
    || (i >= 2 && !a.broker && !(a.tls && a.jwks))
  }

  lemma CollectedRight(a: Absent, i: nat, n: nat)
    requires i < n
    ensures ListIsRight(a, i, n) <==>
            StrictlyIncreasing(Collected(a, i)) && forall role :: role in Collected(a, i) <==> RoleAbsent(a, role)
  {
    CollectedSorted(a, i);
    forall role { CollectedHolds(a, i, role); }
    CollectedHolds(a, i, "database");
    CollectedHolds(a, i, "tls");
    CollectedHolds(a, i, "jwks");
    CollectedHolds(a, i, "broker");
    RoleOrder();
  }

  /** A reconcile whose first failing read is that of component `i` publishes what the loop had
      collected by then. */
  lemma AbortPublishes(fn: Functions, w: World, given: Inputs)
    requires Bundle.Resolved(given.cr.spec.bundle, w.config).Ok?
    requires var cs := Bundle.Resolved(given.cr.spec.bundle, w.config).value; FirstFailing(cs, given) < |cs|
    ensures var cs := Bundle.Resolved(given.cr.spec.bundle, w.config).value;
            Published(fn, w, given) ==
            Collected(AbsentSecrets(given.cr.spec, w.config.broker.value, w.secrets), FirstFailing(cs, given))
  {
    var cs := Bundle.Resolved(given.cr.spec.bundle, w.config).value;
    ResolvedIsTier(w.config, given.cr.spec);
    PublishedIs(fn, w, given);
    StopCollects(cs, w.config.broker.value, w.secrets, given);
  }

  lemma StopCollects(cs: seq<Bundle.Component>, broker: S.BrokerInfo, secrets: map<string, string>, given: Inputs)
    requires IsTier(cs, broker)
    ensures var i := FirstFailing(cs, given);
            Gathered(cs[..i], secrets, given).0 == Collected(AbsentSecrets(given.cr.spec, broker, secrets), i)
  {
    GatheredStopsAt(cs, secrets, given);
    TierCollects(cs[..FirstFailing(cs, given)], broker, secrets, given);
  }

  lemma CollectedIsRight(cs: seq<Bundle.Component>, broker: S.BrokerInfo, w: World, given: Inputs, i: nat)
    requires IsTier(cs, broker) && 2 <= |cs| && i < |cs|
    ensures var a := AbsentSecrets(given.cr.spec, broker, w.secrets);
            SortedAndExact(Collected(a, i), cs, w.secrets, given.cr.spec) <==> ListIsRight(a, i, |cs|)
  {
    var a := AbsentSecrets(given.cr.spec, broker, w.secrets);
    CollectedRight(a, i, |cs|);
    forall role ensures RoleMissing(cs, w.secrets, given.cr.spec, role) <==> RoleAbsent(a, role) {
      TierMissing(cs, w, given, broker, role);
    }
  }

  /** Exactly when the published list is strictly increasing and exact: a condition on the first
      failing read and on which of the four Secrets are absent. */
  lemma SortedAndExactIff(fn: Functions, w: World, given: Inputs)
    requires Bundle.Resolved(given.cr.spec.bundle, w.config).Ok?
    ensures var cs := Bundle.Resolved(given.cr.spec.bundle, w.config).value;
            SortedAndExact(Published(fn, w, given), cs, w.secrets, given.cr.spec) <==>
            ListIsRight(AbsentSecrets(given.cr.spec, w.config.broker.value, w.secrets), FirstFailing(cs, given), |cs|)
  {
    var cs := Bundle.Resolved(given.cr.spec.bundle, w.config).value;
    ResolvedIsTier(w.config, given.cr.spec);
    FirstFailingIff(cs, given);
    if FirstFailing(cs, given) == |cs| {
      MissingIsExact(fn, w, given);
    } else {
      AbortPublishes(fn, w, given);
      CollectedIsRight(cs, w.config.broker.value, w, given, FirstFailing(cs, given));
    }
  }

  // ----- an input for which it is neither -----

  function ExampleWorld(): World {
    World(map[], map[], 0, StatusRuns.INITIAL, map[], [], None,
          Bundle.Config("", "image", "ns", Some(S.BrokerInfo(S.RABBITMQ, ""))))
  }

  function ExampleInputs(failing: string, net: Discovery.Net, faults: Faults): Inputs {
    Inputs(Resource("cluster", 1, Spec(CloudCAPI, "db", AuthSpec(Some(false), "", "", None), None)),
           (name, secret) => name == failing, net, faults)
  }

  /** Database and broker Secrets absent, the read for the node-pool Sentinel failing: the list is
      published out of order. Without the failure the same cluster gets it in order, so the
      Degraded message flips between two reconciles although no Secret changed. */
  lemma AbortedListOutOfOrder(fn: Functions, net: Discovery.Net, faults: Faults)
    ensures Published(fn, ExampleWorld(), ExampleInputs("sentinel-nodepools", net, faults)) == ["database", "broker"]
    ensures !StrictlyIncreasing(["database", "broker"])
    ensures Published(fn, ExampleWorld(), ExampleInputs("", net, faults)) == ["broker", "database"]
  {
    ExampleFails(net, faults);
    ExampleAborts(fn, net, faults);
    ExampleSettles(fn, net, faults);
    RoleOrder();
    assert ["database", "broker"][0] == "database" && ["database", "broker"][1] == "broker";
  }

  lemma ExampleAborts(fn: Functions, net: Discovery.Net, faults: Faults)
    requires FirstFailing(Bundle.Resolved(CloudCAPI, ExampleWorld().config).value,
                          ExampleInputs("sentinel-nodepools", net, faults)) == 2
    ensures Published(fn, ExampleWorld(), ExampleInputs("sentinel-nodepools", net, faults)) == ["database", "broker"]
  {
    AbortPublishes(fn, ExampleWorld(), ExampleInputs("sentinel-nodepools", net, faults));
    ExampleCollected();
  }

  lemma ExampleCollected()
    ensures Collected(Absent(true, false, false, true), 2) == ["database", "broker"]
  {
  }

  lemma ExampleSettles(fn: Functions, net: Discovery.Net, faults: Faults)
    requires !SomeReadFails(Bundle.Resolved(CloudCAPI, ExampleWorld().config).value, ExampleInputs("", net, faults))
    ensures Published(fn, ExampleWorld(), ExampleInputs("", net, faults)) == ["broker", "database"]
  {
    var w, quiet := ExampleWorld(), ExampleInputs("", net, faults);
    var cs := Bundle.Resolved(CloudCAPI, w.config).value;
    ResolvedIsTier(w.config, quiet.cr.spec);
    MissingIsExact(fn, w, quiet);
    forall role ensures role in Published(fn, w, quiet) <==> role == "broker" || role == "database" {
      TierMissing(cs, w, quiet, w.config.broker.value, role);
    }
    TwoRoles(Published(fn, w, quiet));
  }

  lemma TwoRoles(list: seq<string>)
    requires StrictlyIncreasing(list) && forall role :: role in list <==> role == "broker" || role == "database"
    ensures list == ["broker", "database"]
  {
    RoleOrder();
    StrictlyIncreasingUnique(list, ["broker", "database"]);
  }

  lemma NamesDiffer()
    ensures "api" != "sentinel-nodepools" && "sentinel-clusters" != "sentinel-nodepools"
    ensures S.Name("clusters") == "sentinel-clusters" && S.Name("nodepools") == "sentinel-nodepools"
  {
    assert "api"[0] != "sentinel-nodepools"[0] && "sentinel-clusters"[9] != "sentinel-nodepools"[9];
  }

  lemma ExampleFails(net: Discovery.Net, faults: Faults)
    ensures var cs := Bundle.Resolved(CloudCAPI, ExampleWorld().config).value;
            && FirstFailing(cs, ExampleInputs("sentinel-nodepools", net, faults)) == 2
            && !SomeReadFails(cs, ExampleInputs("", net, faults))
  {
    var w, given := ExampleWorld(), ExampleInputs("sentinel-nodepools", net, faults);
    var cs := Bundle.Resolved(CloudCAPI, w.config).value;
    NamesDiffer();
    var refs := Bundle.ReferencedSecrets(cs[2], given.cr.spec);
    assert refs == [SecretReference("broker", S.BROKER_SECRET)] && refs[0] in refs;
    assert ReadFails(cs[2], given) && !ReadFails(cs[0], given) && !ReadFails(cs[1], given);
  }
}
