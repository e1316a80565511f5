/** The rollout hash stamped on a component's Deployment, and exactly when it changes. */
module Stamping {
  import opened Strings
  import opened Sorting
  import opened ConfigHash
  import opened Operands
  import opened Bundle
  import A = ApiComponent
  import S = SentinelComponent

  const CONFIG_HASH_ANNOTATION := "hyperfleet.redhat.com/config-hash"

  // ----- the hashed text -----

  /** The file of the first ConfigMap of that name, in any namespace. */
  function FileText(objs: seq<Operand>, e: ConfigEntry): Option<string> {
    if |objs| == 0 then None
    else if objs[0].ConfigMap? && objs[0].name == e.configMap then Some(Lookup(objs[0].data, e.fileKey))
    else FileText(objs[1..], e)
  }

  /** The files found, in the order of the entries; an entry without a ConfigMap is skipped. */
  function Texts(objs: seq<Operand>, es: seq<ConfigEntry>): seq<string> {
    if |es| == 0 then []
    else
      var n := |es| - 1;
      var t := FileText(objs, es[n]);
      Texts(objs, es[..n]) + if t.Some? then [t.value] else []
  }

  // ----- the annotation -----

  function StampOne(o: Operand, deployment: string, hash: string): Operand {
    if o.Deployment? && o.name == deployment
    then o.(template := o.template.(annotations := o.template.annotations[CONFIG_HASH_ANNOTATION := hash]))
    else o
  }

  function Stamped(objs: seq<Operand>, deployment: string, hash: string): (r: seq<Operand>)
    ensures |r| == |objs| && forall i | 0 <= i < |objs| :: r[i] == StampOne(objs[i], deployment, hash)
  {
    seq(|objs|, i requires 0 <= i < |objs| => StampOne(objs[i], deployment, hash))
  }

  /** Stamping touches one annotation of the named Deployments and nothing else: undoing it
      there gives the old list back. */
  lemma StampFrame(objs: seq<Operand>, deployment: string, hash: string, i: nat)
    requires i < |objs|
    ensures var o, r := objs[i], Stamped(objs, deployment, hash)[i];
            && KeyOf(r) == KeyOf(o)
            && (!(o.Deployment? && o.name == deployment) ==> r == o)
            && (o.Deployment? && o.name == deployment ==>
                  && r.template.annotations.Keys == o.template.annotations.Keys + {CONFIG_HASH_ANNOTATION}
                  && r.template.annotations[CONFIG_HASH_ANNOTATION] == hash
                  && (forall k | k in o.template.annotations && k != CONFIG_HASH_ANNOTATION ::
                        r.template.annotations[k] == o.template.annotations[k])
                  && r.(template := r.template.(annotations := o.template.annotations)) == o)
  {
  }

  /** The hash of a component: the bytes are joined, encoded with the entries sorted, digested. */
  function HashInput(objs: seq<Operand>, target: RolloutTarget, entries: seq<HashEntry>): string {
    Encode(JoinNul(Texts(objs, target.configEntries)), SortBy(entries, EntryId()))
  }

  lemma {:induction false} FileTextSkips(objs: seq<Operand>, e: ConfigEntry, i: nat)
    requires i <= |objs| && forall j | 0 <= j < i :: !(objs[j].ConfigMap? && objs[j].name == e.configMap)
    ensures FileText(objs, e) == FileText(objs[i..], e)
  {
    if i == 0 {
      assert objs[0..] == objs;
    } else {
      FileTextSkips(objs[1..], e, i - 1);
      assert objs[1..][i - 1..] == objs[i..];
    }
  }

  method FindFile(objs: array<Operand>, e: ConfigEntry) returns (t: Option<string>)
    ensures t == FileText(objs[..], e)
  {
    for i := 0 to objs.Length
      invariant forall j | 0 <= j < i :: !(objs[j].ConfigMap? && objs[j].name == e.configMap)
    {
      if objs[i].ConfigMap? && objs[i].name == e.configMap {
        FileTextSkips(objs[..], e, i);
        return Some(Lookup(objs[i].data, e.fileKey));
      }
    }
    FileTextSkips(objs[..], e, objs.Length);
    return None;
  }

  /** `stampConfigHash`, in place. */
  method StampConfigHash(sha: string -> string, objs: array<Operand>, target: RolloutTarget, entries: seq<HashEntry>)
      returns (hash: string)
    modifies objs
    ensures exists code ::
              Preimage(code, JoinNul(Texts(old(objs[..]), target.configEntries)), entries) && hash == sha(code)
    ensures DistinctKeys(entries, EntryId()) ==> hash == sha(HashInput(old(objs[..]), target, entries))
    ensures objs[..] == Stamped(old(objs[..]), target.deployment, hash)
  {
    ghost var before := objs[..];
    var es := target.configEntries;
    var texts: seq<string> := [];
    for i := 0 to |es|
      invariant texts == Texts(before, es[..i])
      invariant objs[..] == before
    {
      assert es[..i + 1][..i] == es[..i];
      var t := FindFile(objs, es[i]);
      if t.Some? {
        texts := texts + [t.value];
      }
    }
    assert es[..|es|] == es;
    hash := ComputeConfigHash(sha, JoinNul(texts), entries);
    for i := 0 to objs.Length
      invariant forall j | i <= j < objs.Length :: objs[j] == before[j]
      invariant forall j | 0 <= j < i :: objs[j] == StampOne(before[j], target.deployment, hash)
    {
      var o := objs[i];
      if o.Deployment? && o.name == target.deployment {
        objs[i] := o.(template := o.template.(annotations := o.template.annotations[CONFIG_HASH_ANNOTATION := hash]));
      }
    }
  }

  // ----- the join determines the files -----

  ghost predicate Complete(objs: seq<Operand>, es: seq<ConfigEntry>) {
    forall e | e in es :: FileText(objs, e).Some?
  }

  lemma {:induction false} TextsComplete(objs: seq<Operand>, es: seq<ConfigEntry>)
    requires Complete(objs, es)
    ensures |Texts(objs, es)| == |es|
    ensures forall i | 0 <= i < |es| :: Texts(objs, es)[i] == FileText(objs, es[i]).value
  {
    if es == [] {
    } else {
      TextsComplete(objs, es[..|es| - 1]);
    }
  }

  /** Files that one list of operands determines by their join: a single file, or several free
      of NUL. */
  ghost predicate Determined(objs: seq<Operand>, es: seq<ConfigEntry>)
    requires Complete(objs, es)
  {
    |es| == 1 || forall e | e in es :: NulFree(FileText(objs, e).value)
  }

  lemma TextsAgree(a: seq<Operand>, b: seq<Operand>, es: seq<ConfigEntry>)
    requires Complete(a, es) && Complete(b, es)
    ensures Texts(a, es) == Texts(b, es) <==> forall e | e in es :: FileText(a, e) == FileText(b, e)
  {
    TextsComplete(a, es);
    TextsComplete(b, es);
    if Texts(a, es) == Texts(b, es) {
      forall e | e in es ensures FileText(a, e) == FileText(b, e) {
        var i :| 0 <= i < |es| && es[i] == e;
        assert Texts(a, es)[i] == Texts(b, es)[i];
      }
    }
    if forall e | e in es :: FileText(a, e) == FileText(b, e) {
      assert forall i | 0 <= i < |es| :: es[i] in es;
      assert Texts(a, es) == Texts(b, es);
    }
  }

  /** With every ConfigMap present, two lists of operands join alike exactly when every file
      agrees, provided the files of one of them hold no NUL or there is only one. */
  lemma JoinDetermines(a: seq<Operand>, b: seq<Operand>, es: seq<ConfigEntry>)
    requires Complete(a, es) && Complete(b, es) && Determined(a, es)
    ensures JoinNul(Texts(a, es)) == JoinNul(Texts(b, es)) <==> forall e | e in es :: FileText(a, e) == FileText(b, e)
  {
    var p, q := Texts(a, es), Texts(b, es);
    TextsAgree(a, b, es);
    TextsComplete(a, es);
    TextsComplete(b, es);
    if es != [] && JoinNul(p) == JoinNul(q) {
      forall s | s in p ensures |es| == 1 || NulFree(s) {
        var i :| 0 <= i < |es| && s == p[i];
        assert es[i] in es;
      }
      SameLengthInjective(p, q);
    }
  }

  /** Every list of texts is that of some operands, one ConfigMap for each entry. */
  function Files(es: seq<ConfigEntry>, texts: seq<string>): (r: seq<Operand>)
    requires |texts| == |es|
    ensures |r| == |es|
    ensures forall i | 0 <= i < |es| :: r[i] == ConfigMap("", es[i].configMap, "", map[es[i].fileKey := texts[i]])
  {
    seq(|es|, i requires 0 <= i < |es| => ConfigMap("", es[i].configMap, "", map[es[i].fileKey := texts[i]]))
  }

  lemma FilesText(es: seq<ConfigEntry>, texts: seq<string>, i: nat)
    requires |texts| == |es| && i < |es| && forall j, k | 0 <= j < k < |es| :: es[j].configMap != es[k].configMap
    ensures FileText(Files(es, texts), es[i]) == Some(texts[i])
  {
    var r := Files(es, texts);
    FileTextSkips(r, es[i], i);
    assert r[i..][0] == r[i];
  }

  /** The provision of `JoinDetermines` is exact: the join determines the files of `a` against all
      operands if and only if they hold no NUL or there is only one. */
  lemma DeterminedIff(a: seq<Operand>, es: seq<ConfigEntry>)
    requires es != [] && Complete(a, es)
    requires forall j, k | 0 <= j < k < |es| :: es[j].configMap != es[k].configMap
    ensures Determined(a, es) <==>
            forall b | Complete(b, es) && JoinNul(Texts(b, es)) == JoinNul(Texts(a, es)) ::
              forall e | e in es :: FileText(b, e) == FileText(a, e)
  {
    if Determined(a, es) {
      forall b | Complete(b, es) && JoinNul(Texts(b, es)) == JoinNul(Texts(a, es))
        ensures forall e | e in es :: FileText(b, e) == FileText(a, e)
      {
        JoinDetermines(a, b, es);
      }
    } else {
      var b := Undetermined(a, es);
    }
  }

  lemma Undetermined(a: seq<Operand>, es: seq<ConfigEntry>) returns (b: seq<Operand>)
    requires es != [] && Complete(a, es) && !Determined(a, es)
    requires forall j, k | 0 <= j < k < |es| :: es[j].configMap != es[k].configMap
    ensures Complete(b, es) && JoinNul(Texts(b, es)) == JoinNul(Texts(a, es))
    ensures exists e :: e in es && FileText(b, e) != FileText(a, e)
  {
    TextsComplete(a, es);
    var e :| e in es && !NulFree(FileText(a, e).value);
    var i :| 0 <= i < |es| && es[i] == e;
    var q := JoinNulShifts(Texts(a, es), i);
    b := Files(es, q);
    forall f | f in es ensures FileText(b, f).Some? {
      var j :| 0 <= j < |es| && es[j] == f;
      FilesText(es, q, j);
    }
    TextsComplete(b, es);
    forall j | 0 <= j < |es| ensures Texts(b, es)[j] == q[j] {
      FilesText(es, q, j);
    }
    assert Texts(b, es) == q;
    TextsAgree(a, b, es);
  }

  /** Without the ConfigMaps the claim fails: a skipped entry leaves no trace in the join. */
  lemma SkippedEntryAmbiguous()
    ensures var es := [ConfigEntry("a", "f"), ConfigEntry("b", "f")];
            var x, y := [ConfigMap("ns", "a", "", map["f" := "text"])], [ConfigMap("ns", "b", "", map["f" := "text"])];
            JoinNul(Texts(x, es)) == JoinNul(Texts(y, es)) && FileText(x, es[0]) != FileText(y, es[0])
  {
  }

  // ----- rendered components -----

  /** The data of the first ConfigMap of that name. */
  function DataOf(objs: seq<Operand>, configMap: string): Option<map<string, string>> {
    if |objs| == 0 then None
    else if objs[0].ConfigMap? && objs[0].name == configMap then Some(objs[0].data)
    else DataOf(objs[1..], configMap)
  }

  lemma {:induction false} FileOfData(objs: seq<Operand>, e: ConfigEntry)
    ensures FileText(objs, e) ==
            match DataOf(objs, e.configMap) case None => None case Some(d) => Some(Lookup(d, e.fileKey))
  {
    if objs == [] {
    } else {
      FileOfData(objs[1..], e);
    }
  }

  lemma {:induction false} DataAt(objs: seq<Operand>, i: nat)
    requires i < |objs| && objs[i].ConfigMap?
    requires forall j | 0 <= j < i :: !(objs[j].ConfigMap? && objs[j].name == objs[i].name)
    ensures DataOf(objs, objs[i].name) == Some(objs[i].data)
  {
    if i == 0 {
    } else {
      DataAt(objs[1..], i - 1);
    }
  }

  lemma ApiData(m: Marshal, c: Component, spec: Spec)
    requires c.Api? && Render(m, c, spec).Ok?
    ensures DataOf(Render(m, c, spec).value, A.CONFIG_MAP_NAME).Some?
    ensures DataOf(Render(m, c, spec).value, A.CONFIG_MAP_NAME).value.Keys == {A.CONFIG_FILE_KEY}
  {
    DataAt(Render(m, c, spec).value, 3);
  }

  lemma SentinelData(m: Marshal, c: Component, spec: Spec)
    requires c.Sentinel? && Render(m, c, spec).Ok?
    ensures DataOf(Render(m, c, spec).value, S.ConfigMapName(c.resourceType)).Some?
    ensures DataOf(Render(m, c, spec).value, S.ConfigMapName(c.resourceType)).value.Keys == {S.CONFIG_FILE_KEY}
    ensures DataOf(Render(m, c, spec).value, S.BrokerConfigMapName(c.resourceType)).Some?
    ensures DataOf(Render(m, c, spec).value, S.BrokerConfigMapName(c.resourceType)).value.Keys ==
            {S.BROKER_CONFIG_FILE_KEY}
  {
    var objs := Render(m, c, spec).value;
    ConfigMapNamesDiffer(c.resourceType, c.resourceType);
    assert |c.resourceType| != |c.resourceType + BROKER|;
    DataAt(objs, 1);
    DataAt(objs, 2);
  }

  /** What `Render` returns holds every ConfigMap that `Rollout` names, and each holds
      exactly the file that is hashed. */
  lemma RenderComplete(m: Marshal, c: Component, spec: Spec, e: ConfigEntry)
    requires Render(m, c, spec).Ok? && e in Rollout(c).configEntries
    ensures var d := DataOf(Render(m, c, spec).value, e.configMap);
            d.Some? && d.value.Keys == {e.fileKey} && FileText(Render(m, c, spec).value, e) == Some(d.value[e.fileKey])
  {
    FileOfData(Render(m, c, spec).value, e);
    if c.Api? {
      ApiData(m, c, spec);
    } else {
      SentinelData(m, c, spec);
    }
  }

  // ----- referenced Secrets -----

  /** The resourceVersion of a Secret that exists. */
  function Version(secrets: map<string, string>, name: string): Option<string> {
    if name in secrets then Some(secrets[name]) else None
  }

  function EntryFor(secrets: map<string, string>, ref: SecretReference): HashEntry {
    match Version(secrets, ref.secret)
    case None => HashEntry(ref.role, false, "")
    case Some(v) => HashEntry(ref.role, true, v)
  }

  function EntriesFor(secrets: map<string, string>, refs: seq<SecretReference>): (r: seq<HashEntry>)
    ensures |r| == |refs| && forall i | 0 <= i < |refs| :: r[i] == EntryFor(secrets, refs[i])
  {
    seq(|refs|, i requires 0 <= i < |refs| => EntryFor(secrets, refs[i]))
  }

  lemma EntriesDistinct(secrets: map<string, string>, c: Component, spec: Spec)
    ensures DistinctKeys(EntriesFor(secrets, ReferencedSecrets(c, spec)), EntryId())
  {
    RolesDistinct(c, spec);
  }

  lemma SameBag(a: seq<HashEntry>, b: seq<HashEntry>)
    requires |a| == |b| && multiset(a) == multiset(b) && DistinctKeys(b, EntryId())
    requires forall i | 0 <= i < |a| :: a[i].id == b[i].id
    ensures a == b
  {
    forall i | 0 <= i < |a| ensures a[i] == b[i] {
      assert a[i] in multiset(b);
      var j :| 0 <= j < |b| && b[j] == a[i];
      assert EntryId()(b[j]) == EntryId()(b[i]);
    }
  }

  lemma SortedAlike(a: seq<HashEntry>, b: seq<HashEntry>)
    requires |a| == |b| && DistinctKeys(b, EntryId())
    requires forall i | 0 <= i < |a| :: a[i].id == b[i].id
    ensures SortBy(a, EntryId()) == SortBy(b, EntryId()) <==> a == b
  {
    if SortBy(a, EntryId()) == SortBy(b, EntryId()) {
      SameBag(a, b);
    }
  }

  lemma SameEntries(s1: map<string, string>, s2: map<string, string>, refs: seq<SecretReference>)
    ensures EntriesFor(s1, refs) == EntriesFor(s2, refs) <==>
            forall s | s in SecretNames(refs) :: Version(s1, s) == Version(s2, s)
  {
  }

  /** Sorted entries agree exactly when every Secret kept its presence and version. */
  lemma EntriesDetermine(s1: map<string, string>, s2: map<string, string>, c: Component, spec: Spec)
    ensures var refs := ReferencedSecrets(c, spec);
            (SortBy(EntriesFor(s1, refs), EntryId()) == SortBy(EntriesFor(s2, refs), EntryId())
             <==> forall s | s in SecretNames(refs) :: Version(s1, s) == Version(s2, s))
  {
    var refs := ReferencedSecrets(c, spec);
    var a, b := EntriesFor(s1, refs), EntriesFor(s2, refs);
    SameEntries(s1, s2, refs);
    EntriesDistinct(s2, c, spec);
    SortedAlike(a, b);
  }

  lemma SortedNormal(secrets: map<string, string>, refs: seq<SecretReference>)
    ensures var s := SortBy(EntriesFor(secrets, refs), EntryId()); NormalAll(s) == s
  {
    var es := EntriesFor(secrets, refs);
    var s := SortBy(es, EntryId());
    forall i | 0 <= i < |s| ensures Normal(s[i]) == s[i] {
      assert s[i] in multiset(es);
      assert s[i] in es;
    }
  }

  // ----- selective rollout -----

  /** What is hashed for a component that rendered. */
  function Input(m: Marshal, c: Component, spec: Spec, secrets: map<string, string>): string
    requires Render(m, c, spec).Ok?
  {
    HashInput(Render(m, c, spec).value, Rollout(c), EntriesFor(secrets, ReferencedSecrets(c, spec)))
  }

  /** The component as it was up to what the controller resolves for it. */
  predicate SameInstance(c: Component, d: Component) {
    match c
    case Api(_, _, _, _) => d.Api? && d == c.(resolvedJWKSURL := d.resolvedJWKSURL)
    case Sentinel(_, _, _, _, _, _) => d.Sentinel? && d == c.(apiBaseURL := d.apiBaseURL)
  }

  /** No rendered Sentinel file holds a NUL byte. */
  ghost predicate PlainText(m: Marshal) {
    (forall c :: NulFree(m.sentinel(c))) && (forall c :: NulFree(m.broker(c)))
  }

  lemma RenderNulFree(m: Marshal, c: Component, spec: Spec, e: ConfigEntry)
    requires PlainText(m) && c.Sentinel? && Render(m, c, spec).Ok? && e in Rollout(c).configEntries
    ensures FileText(Render(m, c, spec).value, e).Some? && NulFree(FileText(Render(m, c, spec).value, e).value)
  {
    var objs := Render(m, c, spec).value;
    RenderComplete(m, c, spec, e);
    ConfigMapNamesDiffer(c.resourceType, c.resourceType);
    assert |c.resourceType| != |c.resourceType + BROKER|;
    DataAt(objs, 1);
    DataAt(objs, 2);
  }

  lemma FilesAgree(m: Marshal, c: Component, d: Component, spec: Spec, e: ConfigEntry)
    requires SameInstance(c, d) && Render(m, c, spec).Ok? && Render(m, d, spec).Ok? && e in Rollout(c).configEntries
    ensures var a, b := Render(m, c, spec).value, Render(m, d, spec).value;
            FileText(a, e) == FileText(b, e) <==> DataOf(a, e.configMap) == DataOf(b, e.configMap)
  {
    RenderComplete(m, c, spec, e);
    RenderComplete(m, d, spec, e);
    var x, y := DataOf(Render(m, c, spec).value, e.configMap).value, DataOf(Render(m, d, spec).value,
      e.configMap).value;
    assert x == map[e.fileKey := x[e.fileKey]] && y == map[e.fileKey := y[e.fileKey]];
  }

  lemma MountedFiles(m: Marshal, c: Component, d: Component, spec: Spec)
    requires SameInstance(c, d) && Render(m, c, spec).Ok? && Render(m, d, spec).Ok? && PlainText(m)
    ensures var a, b := Render(m, c, spec).value, Render(m, d, spec).value;
            (JoinNul(Texts(a, Rollout(c).configEntries)) == JoinNul(Texts(b, Rollout(c).configEntries))
             <==> forall n | n in ConfigMapsOf(Template(c, spec)) :: DataOf(a, n) == DataOf(b, n))
  {
    var a, b := Render(m, c, spec).value, Render(m, d, spec).value;
    var es := Rollout(c).configEntries;
    ReferencesMatch(c, spec);
    forall e | e in es
      ensures FileText(a, e).Some? && FileText(b, e).Some?
      ensures |es| > 1 ==> NulFree(FileText(a, e).value)
      ensures FileText(a, e) == FileText(b, e) <==> DataOf(a, e.configMap) == DataOf(b, e.configMap)
    {
      RenderComplete(m, c, spec, e);
      RenderComplete(m, d, spec, e);
      FilesAgree(m, c, d, spec, e);
      if c.Sentinel? {
        RenderNulFree(m, c, spec, e);
      }
    }
    JoinDetermines(a, b, es);
    assert forall n | n in ConfigMapsOf(Template(c, spec)) :: exists e :: e in es && e.configMap == n;
    assert forall e | e in es :: e.configMap in ConfigMapsOf(Template(c, spec));
  }

  /** Exact selective rollout: with the spec and the images fixed, the hashed bytes of a
      component agree between two reconciles exactly when every ConfigMap its pods mount
      has the same data and every Secret its pod template mounts or reads kept its presence
      and resourceVersion. No other Secret and no other component's ConfigMap matters. */
  lemma SelectiveRollout(m: Marshal, c: Component, d: Component, spec: Spec, s1: map<string, string>,
                         s2: map<string, string>)
    requires SameInstance(c, d) && Render(m, c, spec).Ok? && Render(m, d, spec).Ok? && PlainText(m)
    ensures Template(c, spec) == Template(d, spec)
    ensures Input(m, c, spec, s1) == Input(m, d, spec, s2) <==>
            && (forall n | n in ConfigMapsOf(Template(c, spec)) ::
                  DataOf(Render(m, c, spec).value, n) == DataOf(Render(m, d, spec).value, n))
            && (forall s | s in SecretsOf(Template(c, spec)) :: Version(s1, s) == Version(s2, s))
  {
    var refs := ReferencedSecrets(c, spec);
    ReferencesMatch(c, spec);
    MountedFiles(m, c, d, spec);
    EntriesDetermine(s1, s2, c, spec);
    SortedNormal(s1, refs);
    SortedNormal(s2, refs);
    EncodeInjective(
      JoinNul(Texts(Render(m, c, spec).value, Rollout(c).configEntries)), SortBy(EntriesFor(s1, refs), EntryId()),
      JoinNul(Texts(Render(m, d, spec).value, Rollout(d).configEntries)), SortBy(EntriesFor(s2, refs), EntryId()));
  }

  // ----- the digest of everything applied -----

  /** `hashConfig`: the spec and every component hash, each behind a NUL. */
  method HashConfig(sha: string -> string, json: string, hashes: seq<string>) returns (digest: string)
    ensures digest == sha(JoinNul([json] + hashes))
  {
    var h := new Hasher();
    h.Write(json);
    assert JoinNul([json] + hashes[..0]) == json;
    for i := 0 to |hashes|
      invariant h.written == JoinNul([json] + hashes[..i])
    {
      JoinNext([json] + hashes[..i], hashes[i]);
      assert [json] + hashes[..i + 1] == ([json] + hashes[..i]) + [hashes[i]];
      AppendAssociative(h.written, [NUL], hashes[i]);
      h.Write([NUL]);
      h.Write(hashes[i]);
    }
    assert hashes[..|hashes|] == hashes;
    digest := sha(h.written);
  }

  lemma {:induction false} JoinNext(parts: seq<string>, p: string)
    requires parts != []
    ensures JoinNul(parts + [p]) == JoinNul(parts) + [NUL] + p
  {
    if |parts| > 1 {
      JoinNext(parts[1..], p);
      assert (parts + [p])[1..] == parts[1..] + [p];
      AppendAssociative(parts[0] + [NUL], JoinNul(parts[1..]) + [NUL], p);
      AppendAssociative(parts[0] + [NUL], JoinNul(parts[1..]), [NUL]);
    } else {
      assert (parts + [p])[1..] == [p] && JoinNul([p]) == p;
    }
  }

  /** The bytes behind the applied-config metric determine the spec and every component's
      hash, in order; JSON text and hexadecimal digests hold no NUL. */
  lemma HashConfigInjective(json1: string, hashes1: seq<string>, json2: string, hashes2: seq<string>)
    requires NulFree(json1) && NulFree(json2)
    requires forall h | h in hashes1 || h in hashes2 :: NulFree(h)
    ensures JoinNul([json1] + hashes1) == JoinNul([json2] + hashes2) <==> json1 == json2 && hashes1 == hashes2
  {
    if JoinNul([json1] + hashes1) == JoinNul([json2] + hashes2) {
      JoinNulInjective([json1] + hashes1, [json2] + hashes2);
      assert ([json1] + hashes1)[0] == json1 && ([json2] + hashes2)[0] == json2;
      assert ([json1] + hashes1)[1..] == hashes1 && ([json2] + hashes2)[1..] == hashes2;
    }
  }
}
