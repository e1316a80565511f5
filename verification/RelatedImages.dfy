/** The related-images validator: three passes over shared maps, and what they report. */
module RelatedImages {
  import opened Strings

  const RELATED_IMAGE_PREFIX := "RELATED_IMAGE_"

  datatype ImageEntry = ImageEntry(name: string, image: string)
  datatype EnvVar = EnvVar(name: string, value: string)
  datatype Container = Container(name: string, image: string, env: seq<EnvVar>)
  datatype Deployment = Deployment(containers: seq<Container>, initContainers: seq<Container>)
  datatype Csv = Csv(deployments: seq<Deployment>, relatedImages: seq<ImageEntry>)

  /** One message per way of failing; the text of the message is its constructor. */
  datatype Error =
    | ParseFailure
    | NotDigest(image: string)
    | DuplicateImage(image: string)
    | DuplicateEnv(env: string, container: string)
    | EnvNotRelated(env: string, value: string)
    | ContainerNotRelated(image: string)

  function Containers(ds: seq<Deployment>): seq<Container> {
    if |ds| == 0 then [] else Containers(ds[..|ds| - 1]) + ds[|ds| - 1].containers + ds[|ds| - 1].initContainers
  }

  predicate IsRelatedVar(e: EnvVar) {
    HasPrefix(e.name, RELATED_IMAGE_PREFIX)
  }

  // ----- what a document must satisfy, and every way it can fail -----

  ghost predicate ImagesAre(csv: Csv, image: string) {
    exists i | 0 <= i < |csv.relatedImages| :: csv.relatedImages[i].image == image
  }

  /** A container or init container of some deployment. */
  ghost predicate InBundle(csv: Csv, c: Container) {
    exists d :: d in csv.deployments && (c in d.containers || c in d.initContainers)
  }

  /** A variable named "RELATED_IMAGE_" followed by anything. */
  ghost predicate Inspected(e: EnvVar) {
    exists suffix :: e.name == "RELATED_IMAGE_" + suffix
  }

  /** The declarative reading of the policy. */
  ghost predicate Conforms(isDigest: string -> bool, csv: Csv) {
    && (forall c | InBundle(csv, c) :: isDigest(c.image) && ImagesAre(csv, c.image))
    && (forall e | e in csv.relatedImages :: isDigest(e.image))
    && (forall i, j | 0 <= i < j < |csv.relatedImages| :: csv.relatedImages[i].image != csv.relatedImages[j].image)
    && (forall c, k | InBundle(csv, c) && 0 <= k < |c.env| && Inspected(c.env[k]) ::
          isDigest(c.env[k].value) && ImagesAre(csv, c.env[k].value))
    && (forall c, j, k | InBundle(csv, c) && 0 <= j < k < |c.env| && Inspected(c.env[k]) ::
          c.env[j].name != c.env[k].name)
  }

  /** `c.env[k]` is the first variable of its name in the container. */
  predicate FirstOfName(c: Container, k: nat)
    requires k < |c.env|
  {
    forall j | 0 <= j < k :: c.env[j].name != c.env[k].name
  }

  /** An inspected variable `k` of a container of the bundle. */
  ghost predicate VarOfBundle(csv: Csv, c: Container, k: int) {
    InBundle(csv, c) && 0 <= k < |c.env| && Inspected(c.env[k])
  }

  /** Every reason to report, message by message. */
  ghost predicate Violation(isDigest: string -> bool, csv: Csv, e: Error) {
    match e
    case ParseFailure => false
    case NotDigest(x) =>
      !isDigest(x)
      && (|| (exists c :: InBundle(csv, c) && c.image == x)
          || ImagesAre(csv, x)
          || (exists c, k :: VarOfBundle(csv, c, k) && c.env[k].value == x))
    case DuplicateImage(x) =>
      exists i, j | 0 <= i < j < |csv.relatedImages| :: csv.relatedImages[i].image == csv.relatedImages[j].image == x
    case DuplicateEnv(name, container) =>
      exists c, k :: VarOfBundle(csv, c, k) && c.env[k].name == name && c.name == container && !FirstOfName(c, k)
    case EnvNotRelated(name, value) =>
      && !ImagesAre(csv, value)
      && exists c, k :: VarOfBundle(csv, c, k) && c.env[k] == EnvVar(name, value) && FirstOfName(c, k)
    case ContainerNotRelated(x) => !ImagesAre(csv, x) && exists c :: InBundle(csv, c) && c.image == x
  }

  // ----- what the passes look for -----

  ghost predicate ContainerError(isDigest: string -> bool, cs: seq<Container>, e: Error) {
    e.NotDigest? && !isDigest(e.image) && exists c :: c in cs && c.image == e.image
  }

  ghost predicate RelatedError(isDigest: string -> bool, images: seq<ImageEntry>, e: Error) {
    match e
    case NotDigest(x) => !isDigest(x) && exists i | 0 <= i < |images| :: images[i].image == x
    case DuplicateImage(x) => exists i, j | 0 <= i < j < |images| :: images[i].image == images[j].image == x
    case _ => false
  }

  /** What variable `k` of container `c` is reported for. A repeated name is not looked up. */
  ghost predicate VarError(isDigest: string -> bool, related: set<string>, c: Container, k: nat, e: Error)
    requires k < |c.env|
  {
    var v := c.env[k];
    IsRelatedVar(v) &&
    match e
    case NotDigest(x) => x == v.value && !isDigest(x)
    case DuplicateEnv(name, container) => !FirstOfName(c, k) && name == v.name && container == c.name
    case EnvNotRelated(name, value) => FirstOfName(c, k) && name == v.name && value == v.value && value !in related
    case _ => false
  }

  ghost predicate EnvError(isDigest: string -> bool, related: set<string>, cs: seq<Container>, e: Error) {
    exists c, k :: c in cs && 0 <= k < |c.env| && VarError(isDigest, related, c, k, e)
  }

  function ImageSet(images: seq<ImageEntry>): set<string> {
    set i | 0 <= i < |images| :: images[i].image
  }

  lemma {:induction false} ContainersAppend(a: seq<Deployment>, b: seq<Deployment>)
    ensures Containers(a + b) == Containers(a) + Containers(b)
  {
    if b == [] {
      assert a + b == a;
    } else {
      var init, d := b[..|b| - 1], b[|b| - 1];
      assert (a + b)[..|a + b| - 1] == a + init && (a + b)[|a + b| - 1] == d;
      ContainersAppend(a, init);
      assert Containers(a) + (Containers(init) + d.containers + d.initContainers) ==
             Containers(a) + Containers(init) + d.containers + d.initContainers;
    }
  }

  lemma OneDeployment(d: Deployment)
    ensures Containers([]) == [] && Containers([d]) == d.containers + d.initContainers
  {
    assert [d][..0] == [];
    assert [] + d.containers == d.containers;
  }

  /** The passes visit the deployments in order and in each the containers before the init
      containers, leaving none out. */
  lemma ContainersInOrder(a: seq<Deployment>, d: Deployment, b: seq<Deployment>)
    ensures Containers([]) == [] && Containers([d]) == d.containers + d.initContainers
    ensures Containers(a + [d] + b) == Containers(a) + (d.containers + d.initContainers) + Containers(b)
  {
    OneDeployment(d);
    ContainersAppend(a, [d]);
    ContainersAppend(a + [d], b);
  }

  lemma {:induction false} ContainersAre(ds: seq<Deployment>, c: Container)
    ensures c in Containers(ds) <==> exists d :: d in ds && (c in d.containers || c in d.initContainers)
  {
    if ds == [] {
    } else {
      var init, d := ds[..|ds| - 1], ds[|ds| - 1];
      ContainersAre(init, c);
      assert ds == init + [d];
      assert c in Containers(ds) <==> c in Containers(init) || c in d.containers || c in d.initContainers;
    }
  }

  lemma InspectedIff(e: EnvVar)
    ensures IsRelatedVar(e) <==> Inspected(e)
  {
    HasPrefixIff(e.name, RELATED_IMAGE_PREFIX);
  }

  /** What the passes look for is what the policy forbids. */
  lemma FoundIsViolation(isDigest: string -> bool, csv: Csv, e: Error)
    ensures var cs, related := Containers(csv.deployments), ImageSet(csv.relatedImages);
            Violation(isDigest, csv, e) <==>
            || ContainerError(isDigest, cs, e) || RelatedError(isDigest, csv.relatedImages, e)
            || EnvError(isDigest, related, cs, e)
            || (e.ContainerNotRelated? && e.image !in related && exists c :: c in cs && c.image == e.image)
  {
    var cs, related := Containers(csv.deployments), ImageSet(csv.relatedImages);
    forall c ensures c in cs <==> InBundle(csv, c) {
      ContainersAre(csv.deployments, c);
    }
    forall x ensures x in related <==> ImagesAre(csv, x) {
    }
    EnvErrorIff(isDigest, csv, e);
  }

  /** What variable `k` is reported for, without the helper that recognises it. */
  ghost predicate VarReported(isDigest: string -> bool, csv: Csv, c: Container, k: nat, e: Error)
    requires k < |c.env|
  {
    match e
    case NotDigest(x) => x == c.env[k].value && !isDigest(x)
    case DuplicateEnv(name, container) => !FirstOfName(c, k) && name == c.env[k].name && container == c.name
    case EnvNotRelated(name, value) => FirstOfName(c, k) && c.env[k] == EnvVar(name, value) && !ImagesAre(csv, value)
    case _ => false
  }

  lemma EnvErrorIff(isDigest: string -> bool, csv: Csv, e: Error)
    ensures EnvError(isDigest, ImageSet(csv.relatedImages), Containers(csv.deployments), e) <==>
            exists c, k: nat :: VarOfBundle(csv, c, k) && VarReported(isDigest, csv, c, k, e)
  {
    var cs, related := Containers(csv.deployments), ImageSet(csv.relatedImages);
    forall c ensures c in cs <==> InBundle(csv, c) {
      ContainersAre(csv.deployments, c);
    }
    forall c, k: nat | c in cs && k < |c.env|
      ensures VarError(isDigest, related, c, k, e) <==>
              VarOfBundle(csv, c, k) && VarReported(isDigest, csv, c, k, e)
    {
      InspectedIff(c.env[k]);
    }
  }

  /** The messages are complete: a document without violations conforms, and conversely. */
  lemma ConformsIffNoViolation(isDigest: string -> bool, csv: Csv)
    ensures Conforms(isDigest, csv) <==> forall e :: !Violation(isDigest, csv, e)
  {
    if forall e :: !Violation(isDigest, csv, e) {
      NoViolationConforms(isDigest, csv);
    }
  }

  lemma NoViolationConforms(isDigest: string -> bool, csv: Csv)
    requires forall e :: !Violation(isDigest, csv, e)
    ensures Conforms(isDigest, csv)
  {
    forall c | InBundle(csv, c) ensures isDigest(c.image) && ImagesAre(csv, c.image) {
      assert !Violation(isDigest, csv, NotDigest(c.image));
      assert !Violation(isDigest, csv, ContainerNotRelated(c.image));
    }
    forall e | e in csv.relatedImages ensures isDigest(e.image) {
      assert !Violation(isDigest, csv, NotDigest(e.image));
    }
    forall i, j | 0 <= i < j < |csv.relatedImages|
      ensures csv.relatedImages[i].image != csv.relatedImages[j].image
    {
      assert !Violation(isDigest, csv, DuplicateImage(csv.relatedImages[i].image));
    }
    forall c, k | VarOfBundle(csv, c, k)
      ensures FirstOfName(c, k) && isDigest(c.env[k].value) && ImagesAre(csv, c.env[k].value)
    {
      var v := c.env[k];
      assert !Violation(isDigest, csv, DuplicateEnv(v.name, c.name));
      assert !Violation(isDigest, csv, NotDigest(v.value));
      assert !Violation(isDigest, csv, EnvNotRelated(v.name, v.value));
    }
  }

  // ----- the reports of the three passes, message by message -----

  function Note(b: bool, e: Error): seq<Error> {
    if b then [e] else []
  }

  function ContainerErrors(isDigest: string -> bool, cs: seq<Container>): seq<Error> {
    if |cs| == 0 then []
    else
      var n := |cs| - 1;
      ContainerErrors(isDigest, cs[..n]) + Note(!isDigest(cs[n].image), NotDigest(cs[n].image))
  }

  function RelatedErrors(isDigest: string -> bool, images: seq<ImageEntry>): seq<Error> {
    if |images| == 0 then []
    else
      var n := |images| - 1;
      var image := images[n].image;
      RelatedErrors(isDigest, images[..n])
      + Note(!isDigest(image), NotDigest(image)) + Note(image in ImageSet(images[..n]), DuplicateImage(image))
  }

  /** What variable `k` adds: a repeated name is reported and not looked up. */
  function VarErrors(isDigest: string -> bool, related: set<string>, c: Container, k: nat): seq<Error>
    requires k < |c.env|
  {
    var v := c.env[k];
    if !IsRelatedVar(v) then []
    else
      Note(!isDigest(v.value), NotDigest(v.value))
      + if FirstOfName(c, k) then Note(v.value !in related, EnvNotRelated(v.name, v.value))
        else [DuplicateEnv(v.name, c.name)]
  }

  function ContainerEnvErrors(isDigest: string -> bool, related: set<string>, c: Container, n: nat): seq<Error>
    requires n <= |c.env|
  {
    if n == 0 then []
    else ContainerEnvErrors(isDigest, related, c, n - 1) + VarErrors(isDigest, related, c, n - 1)
  }

  function EnvErrors(isDigest: string -> bool, related: set<string>, cs: seq<Container>): seq<Error> {
    if |cs| == 0 then []
    else
      var n := |cs| - 1;
      EnvErrors(isDigest, related, cs[..n]) + ContainerEnvErrors(isDigest, related, cs[n], |cs[n].env|)
  }

  /** Everything reported before the last loop, in order. */
  function Reported(isDigest: string -> bool, csv: Csv): seq<Error> {
    var cs := Containers(csv.deployments);
    ContainerErrors(isDigest, cs) + RelatedErrors(isDigest, csv.relatedImages)
    + EnvErrors(isDigest, ImageSet(csv.relatedImages), cs)
  }

  /** The container images that are not listed. */
  function Unmatched(csv: Csv): set<string> {
    (set c | c in Containers(csv.deployments) :: c.image) - ImageSet(csv.relatedImages)
  }

  /** What the last loop may report: each unmatched image once, in the order of a map iteration. */
  ghost predicate IsTail(csv: Csv, tail: seq<Error>) {
    && (forall i, j | 0 <= i < j < |tail| :: tail[i] != tail[j])
    && (forall e :: e in tail <==> e.ContainerNotRelated? && e.image in Unmatched(csv))
  }

  // ----- the messages are the violations -----

  lemma {:induction false} ContainerErrorsAre(isDigest: string -> bool, cs: seq<Container>, e: Error)
    ensures e in ContainerErrors(isDigest, cs) <==> ContainerError(isDigest, cs, e)
  {
    if cs == [] {
    } else {
      ContainerErrorsAre(isDigest, cs[..|cs| - 1], e);
      assert cs == cs[..|cs| - 1] + [cs[|cs| - 1]];
    }
  }

  lemma {:induction false} RelatedErrorsAre(isDigest: string -> bool, images: seq<ImageEntry>, e: Error)
    ensures e in RelatedErrors(isDigest, images) <==> RelatedError(isDigest, images, e)
  {
    if images == [] {
    } else {
      var n := |images| - 1;
      RelatedErrorsAre(isDigest, images[..n], e);
      NextRelated(isDigest, images, n);
      assert images[..n + 1] == images;
    }
  }

  lemma VarErrorsAre(isDigest: string -> bool, related: set<string>, c: Container, k: nat, e: Error)
    requires k < |c.env|
    ensures e in VarErrors(isDigest, related, c, k) <==> VarError(isDigest, related, c, k, e)
  {
  }

  /** One of the first `n` variables is reported for `e`. */
  ghost predicate AnyVar(isDigest: string -> bool, related: set<string>, c: Container, n: nat, e: Error)
    requires n <= |c.env|
  {
    exists k :: 0 <= k < n && VarError(isDigest, related, c, k, e)
  }

  lemma AnyVarNext(isDigest: string -> bool, related: set<string>, c: Container, n: nat, e: Error)
    requires n < |c.env|
    ensures AnyVar(isDigest, related, c, n + 1, e) <==>
            AnyVar(isDigest, related, c, n, e) || e in VarErrors(isDigest, related, c, n)
  {
    VarErrorsAre(isDigest, related, c, n, e);
  }

  lemma ContainerEnvErrorsNext(isDigest: string -> bool, related: set<string>, c: Container, n: nat, e: Error)
    requires n < |c.env|
    ensures e in ContainerEnvErrors(isDigest, related, c, n + 1) <==>
            e in ContainerEnvErrors(isDigest, related, c, n) || e in VarErrors(isDigest, related, c, n)
  {
  }

  lemma {:induction false} ContainerEnvErrorsAre(isDigest: string -> bool, related: set<string>, c: Container, n: nat,
                                                 e: Error)
    requires n <= |c.env|
    ensures e in ContainerEnvErrors(isDigest, related, c, n) <==> AnyVar(isDigest, related, c, n, e)
  {
    if n == 0 {
    } else {
      var m := n - 1;
      ContainerEnvErrorsAre(isDigest, related, c, m, e);
      AnyVarNext(isDigest, related, c, m, e);
      ContainerEnvErrorsNext(isDigest, related, c, m, e);
      assert m + 1 == n;
    }
  }

  lemma EnvErrorNext(isDigest: string -> bool, related: set<string>, cs: seq<Container>, c: Container, e: Error)
    ensures EnvError(isDigest, related, cs + [c], e) <==>
            EnvError(isDigest, related, cs, e) || AnyVar(isDigest, related, c, |c.env|, e)
  {
    var next := cs + [c];
    assert forall d :: d in next <==> d in cs || d == c;
  }

  lemma EnvErrorsNext(isDigest: string -> bool, related: set<string>, cs: seq<Container>, c: Container, e: Error)
    ensures e in EnvErrors(isDigest, related, cs + [c]) <==>
            e in EnvErrors(isDigest, related, cs) || e in ContainerEnvErrors(isDigest, related, c, |c.env|)
  {
    assert (cs + [c])[..|cs|] == cs;
  }

  lemma EnvErrorsStep(isDigest: string -> bool, related: set<string>, cs: seq<Container>, c: Container, e: Error)
    requires e in EnvErrors(isDigest, related, cs) <==> EnvError(isDigest, related, cs, e)
    ensures e in EnvErrors(isDigest, related, cs + [c]) <==> EnvError(isDigest, related, cs + [c], e)
  {
    EnvErrorNext(isDigest, related, cs, c, e);
    EnvErrorsNext(isDigest, related, cs, c, e);
    ContainerEnvErrorsAre(isDigest, related, c, |c.env|, e);
  }

  lemma {:induction false} EnvErrorsAre(isDigest: string -> bool, related: set<string>, cs: seq<Container>, e: Error)
    ensures e in EnvErrors(isDigest, related, cs) <==> EnvError(isDigest, related, cs, e)
  {
    if cs == [] {
    } else {
      var a, c := cs[..|cs| - 1], cs[|cs| - 1];
      assert cs == a + [c];
      EnvErrorsAre(isDigest, related, a, e);
      EnvErrorsStep(isDigest, related, a, c, e);
    }
  }

  /** A complete report holds exactly the violations. */
  lemma ReportIsViolations(isDigest: string -> bool, csv: Csv, tail: seq<Error>, e: Error)
    requires IsTail(csv, tail)
    ensures e in Reported(isDigest, csv) + tail <==> Violation(isDigest, csv, e)
  {
    var cs := Containers(csv.deployments);
    FoundIsViolation(isDigest, csv, e);
    ContainerErrorsAre(isDigest, cs, e);
    RelatedErrorsAre(isDigest, csv.relatedImages, e);
    EnvErrorsAre(isDigest, ImageSet(csv.relatedImages), cs, e);
    assert e in Reported(isDigest, csv) <==>
           || e in ContainerErrors(isDigest, cs) || e in RelatedErrors(isDigest, csv.relatedImages)
           || e in EnvErrors(isDigest, ImageSet(csv.relatedImages), cs);
  }

  lemma NextRelated(isDigest: string -> bool, images: seq<ImageEntry>, i: nat)
    requires i < |images|
    ensures forall e :: RelatedError(isDigest, images[..i + 1], e) <==>
        || RelatedError(isDigest, images[..i], e)
        || (e == NotDigest(images[i].image) && !isDigest(images[i].image))
        || (e == DuplicateImage(images[i].image) && images[i].image in ImageSet(images[..i]))
  {
    var now, next := images[..i], images[..i + 1];
    assert next == now + [images[i]];
    forall e | RelatedError(isDigest, now, e) ensures RelatedError(isDigest, next, e) {
      if e.NotDigest? {
        var k :| 0 <= k < |now| && now[k].image == e.image;
        assert next[k].image == e.image;
      } else {
        var k, m :| 0 <= k < m < |now| && now[k].image == now[m].image == e.image;
        assert next[k].image == next[m].image == e.image;
      }
    }
    assert next[i].image == images[i].image;
    if images[i].image in ImageSet(now) {
      var k :| 0 <= k < |now| && now[k].image == images[i].image;
      assert next[k].image == next[i].image;
    }
  }

  /** The map of the first pass: every container image, not yet matched. */
  function ImageMap(cs: seq<Container>): map<string, bool> {
    if |cs| == 0 then map[] else ImageMap(cs[..|cs| - 1])[cs[|cs| - 1].image := false]
  }

  lemma {:induction false} ImageMapHolds(cs: seq<Container>, x: string)
    ensures x in ImageMap(cs) <==> exists c :: c in cs && c.image == x
    ensures x in ImageMap(cs) ==> !ImageMap(cs)[x]
  {
    if cs == [] {
    } else {
      ImageMapHolds(cs[..|cs| - 1], x);
      assert cs == cs[..|cs| - 1] + [cs[|cs| - 1]];
    }
  }

  lemma AppendAssociative(a: seq<Error>, b: seq<Error>, c: seq<Error>)
    ensures a + (b + c) == (a + b) + c
  {
  }

  lemma ContainerNext(isDigest: string -> bool, before: seq<Error>, a: seq<Container>, c: Container)
    ensures before + ContainerErrors(isDigest, a + [c]) ==
            (before + ContainerErrors(isDigest, a)) + Note(!isDigest(c.image), NotDigest(c.image))
    ensures ImageMap(a + [c]) == ImageMap(a)[c.image := false]
  {
    assert (a + [c])[..|a|] == a;
    AppendAssociative(before, ContainerErrors(isDigest, a), Note(!isDigest(c.image), NotDigest(c.image)));
  }

  lemma EnvNext(isDigest: string -> bool, related: set<string>, before: seq<Error>, a: seq<Container>, c: Container)
    ensures before + EnvErrors(isDigest, related, a + [c]) ==
            (before + EnvErrors(isDigest, related, a)) + ContainerEnvErrors(isDigest, related, c, |c.env|)
  {
    assert (a + [c])[..|a|] == a;
    AppendAssociative(before, EnvErrors(isDigest, related, a), ContainerEnvErrors(isDigest, related, c, |c.env|));
  }

  lemma RelatedNext(isDigest: string -> bool, before: seq<Error>, a: seq<ImageEntry>, entry: ImageEntry)
    ensures before + RelatedErrors(isDigest, a + [entry]) ==
            ((before + RelatedErrors(isDigest, a)) + Note(!isDigest(entry.image), NotDigest(entry.image)))
            + Note(entry.image in ImageSet(a), DuplicateImage(entry.image))
    ensures ImageSet(a + [entry]) == ImageSet(a) + {entry.image}
  {
    var image := entry.image;
    assert (a + [entry])[..|a|] == a && (a + [entry])[|a|] == entry;
    AppendAssociative(RelatedErrors(isDigest, a), Note(!isDigest(image), NotDigest(image)),
      Note(image in ImageSet(a), DuplicateImage(image)));
    ImageSetNext(a, entry);
  }

  lemma ImageSetNext(a: seq<ImageEntry>, entry: ImageEntry)
    ensures ImageSet(a + [entry]) == ImageSet(a) + {entry.image}
  {
    var next := a + [entry];
    assert next[|a|] == entry && forall i | 0 <= i < |a| :: next[i] == a[i];
  }

  lemma ContainersNext(ds: seq<Deployment>, i: nat)
    requires i < |ds|
    ensures Containers(ds[..i + 1]) == Containers(ds[..i]) + (ds[i].containers + ds[i].initContainers)
  {
    assert ds[..i + 1][..i] == ds[..i];
  }

  lemma PrefixNext(done: seq<Container>, all: seq<Container>, j: nat)
    requires j < |all|
    ensures done + all[..j + 1] == (done + all[..j]) + [all[j]]
  {
  }

  // ----- the passes -----

  /** `matched` is the map of container images with the listed ones marked. */
  ghost predicate Marked(matched: map<string, bool>, containerImages: map<string, bool>, listed: set<string>) {
    matched.Keys == containerImages.Keys && forall x | x in matched :: matched[x] == (containerImages[x] || x in listed)
  }

  /** What the second pass has done after the entries `seen`. */
  ghost predicate Listed(isDigest: string -> bool, start: seq<Error>, errors: seq<Error>, seen: seq<ImageEntry>,
                         related: map<string, string>, matched: map<string, bool>, containerImages: map<string, bool>) {
    && errors == start + RelatedErrors(isDigest, seen)
    && related.Keys == ImageSet(seen) && Marked(matched, containerImages, ImageSet(seen))
  }

  lemma ListedNext(isDigest: string -> bool, start: seq<Error>, before: seq<Error>, images: seq<ImageEntry>, i: nat)
    requires i < |images| && before == start + RelatedErrors(isDigest, images[..i])
    ensures var image := images[i].image;
            start + RelatedErrors(isDigest, images[..i + 1]) ==
            (before + Note(!isDigest(image), NotDigest(image)))
            + Note(image in ImageSet(images[..i]), DuplicateImage(image))
    ensures ImageSet(images[..i + 1]) == ImageSet(images[..i]) + {images[i].image}
  {
    assert images[..i + 1] == images[..i] + [images[i]];
    RelatedNext(isDigest, start, images[..i], images[i]);
  }

  /** The report under construction. */
  class ManifestResult {
    var errors: seq<Error>

    constructor ()
      ensures errors == []
    {
      errors := [];
    }

    method Report(e: Error)
      modifies this
      ensures errors == old(errors) + [e]
    {
      errors := errors + [e];
    }

    /** The first pass also records every container image, not yet matched. */
    method ValidateContainerImages(isDigest: string -> bool, deployments: seq<Deployment>)
        returns (containerImages: map<string, bool>)
      modifies this
      ensures errors == old(errors) + ContainerErrors(isDigest, Containers(deployments))
      ensures containerImages == ImageMap(Containers(deployments))
    {
      containerImages := map[];
      for i := 0 to |deployments|
        invariant errors == old(errors) + ContainerErrors(isDigest, Containers(deployments[..i]))
        invariant containerImages == ImageMap(Containers(deployments[..i]))
      {
        var all := deployments[i].containers + deployments[i].initContainers;
        ghost var done := Containers(deployments[..i]);
        ContainersNext(deployments, i);
        assert done + all[..0] == done;
        ghost var seen := done;
        for j := 0 to |all|
          invariant seen == done + all[..j]
          invariant errors == old(errors) + ContainerErrors(isDigest, seen)
          invariant containerImages == ImageMap(seen)
        {
          var c := all[j];
          PrefixNext(done, all, j);
          ContainerNext(isDigest, old(errors), seen, c);
          seen := seen + [c];
          containerImages := containerImages[c.image := false];
          ValidateDigest(isDigest, c.image);
        }
        assert all[..|all|] == all;
      }
      assert deployments[..|deployments|] == deployments;
    }

    /** The digest test the three passes share. */
    method ValidateDigest(isDigest: string -> bool, image: string)
      modifies this
      ensures errors == old(errors) + Note(!isDigest(image), NotDigest(image))
    {
      if !isDigest(image) {
        Report(NotDigest(image));
      } else {
        assert errors + [] == errors;
      }
    }

    /** The second pass marks the container images it finds listed. */
    method ValidateRelatedImages(isDigest: string -> bool, images: seq<ImageEntry>, containerImages: map<string, bool>)
        returns (relatedImages: map<string, string>, matched: map<string, bool>)
      modifies this
      ensures errors == old(errors) + RelatedErrors(isDigest, images)
      ensures relatedImages.Keys == ImageSet(images)
      ensures Marked(matched, containerImages, ImageSet(images))
    {
      relatedImages, matched := map[], containerImages;
      for i := 0 to |images|
        invariant Listed(isDigest, old(errors), errors, images[..i], relatedImages, matched, containerImages)
      {
        ghost var before := errors;
        ghost var listed := ImageSet(images[..i]);
        ListedNext(isDigest, old(errors), before, images, i);
        relatedImages, matched := ValidateEntry(isDigest, images[i], relatedImages, matched, listed, containerImages);
      }
      assert images[..|images|] == images;
    }

    /** One entry: the first of its image is recorded and marks the container images. */
    method ValidateEntry(isDigest: string -> bool, entry: ImageEntry, relatedImages: map<string, string>,
                         marked: map<string, bool>, ghost listed: set<string>,
                         ghost containerImages: map<string, bool>)
        returns (related: map<string, string>, matched: map<string, bool>)
      requires relatedImages.Keys == listed && Marked(marked, containerImages, listed)
      modifies this
      ensures errors == (old(errors) + Note(!isDigest(entry.image), NotDigest(entry.image)))
                        + Note(entry.image in listed, DuplicateImage(entry.image))
      ensures related.Keys == listed + {entry.image} && Marked(matched, containerImages, listed + {entry.image})
    {
      related, matched := relatedImages, marked;
      ValidateDigest(isDigest, entry.image);
      if entry.image !in relatedImages {
        related := related[entry.image := entry.name];
        if entry.image in matched {
          matched := matched[entry.image := true];
        }
        assert errors + [] == errors;
      } else {
        Report(DuplicateImage(entry.image));
      }
    }

    /** The third pass looks at the RELATED_IMAGE_ variables of each container. */
    method ValidateEnvVars(isDigest: string -> bool, deployments: seq<Deployment>, relatedImages: map<string, string>)
      modifies this
      ensures errors == old(errors) + EnvErrors(isDigest, relatedImages.Keys, Containers(deployments))
    {
      ghost var related := relatedImages.Keys;
      for i := 0 to |deployments|
        invariant errors == old(errors) + EnvErrors(isDigest, related, Containers(deployments[..i]))
      {
        var all := deployments[i].containers + deployments[i].initContainers;
        ghost var done := Containers(deployments[..i]);
        ContainersNext(deployments, i);
        assert done + all[..0] == done;
        ghost var seen := done;
        for j := 0 to |all|
          invariant seen == done + all[..j]
          invariant errors == old(errors) + EnvErrors(isDigest, related, seen)
        {
          PrefixNext(done, all, j);
          EnvNext(isDigest, related, old(errors), seen, all[j]);
          seen := seen + [all[j]];
          ValidateContainerEnv(isDigest, all[j], relatedImages);
        }
        assert all[..|all|] == all;
      }
      assert deployments[..|deployments|] == deployments;
    }

    /** The inner loop of the third pass. */
    method ValidateContainerEnv(isDigest: string -> bool, c: Container, relatedImages: map<string, string>)
      modifies this
      ensures errors == old(errors) + ContainerEnvErrors(isDigest, relatedImages.Keys, c, |c.env|)
    {
      var seen: seq<string> := [];
      for k := 0 to |c.env|
        invariant errors == old(errors) + ContainerEnvErrors(isDigest, relatedImages.Keys, c, k)
        invariant SeenBefore(c, k, seen)
      {
        AppendAssociative(old(errors), ContainerEnvErrors(isDigest, relatedImages.Keys, c, k),
          VarErrors(isDigest, relatedImages.Keys, c, k));
        seen := ValidateVar(isDigest, c, k, seen, relatedImages);
      }
    }

    /** One variable: a name seen before is reported and skipped. */
    method ValidateVar(isDigest: string -> bool, c: Container, k: nat, seen: seq<string>,
                       relatedImages: map<string, string>)
        returns (after: seq<string>)
      requires k < |c.env| && SeenBefore(c, k, seen)
      modifies this
      ensures errors == old(errors) + VarErrors(isDigest, relatedImages.Keys, c, k)
      ensures SeenBefore(c, k + 1, after)
    {
      var v := c.env[k];
      after := seen;
      if IsRelatedVar(v) {
        assert v.name in seen <==> !FirstOfName(c, k);
        if !isDigest(v.value) {
          Report(NotDigest(v.value));
        }
        if v.name in seen {
          Report(DuplicateEnv(v.name, c.name));
          return;
        }
        after := after + [v.name];
        if v.value !in relatedImages {
          Report(EnvNotRelated(v.name, v.value));
        }
      }
    }

    /** The last loop: images never matched, in the order of the map. */
    method ReportUnmatched(matched: map<string, bool>) returns (ghost tail: seq<Error>)
      modifies this
      ensures errors == old(errors) + tail && (forall i, j | 0 <= i < j < |tail| :: tail[i] != tail[j])
      ensures forall e :: e in tail <==> e.ContainerNotRelated? && e.image in matched && !matched[e.image]
    {
      var todo := matched.Keys;
      tail := [];
      while todo != {}
        invariant todo <= matched.Keys
        invariant errors == old(errors) + tail
        invariant forall i, j | 0 <= i < j < |tail| :: tail[i] != tail[j]
        invariant forall e :: e in tail <==>
            e.ContainerNotRelated? && e.image in matched.Keys - todo && !matched[e.image]
      {
        var image :| image in todo;
        if !matched[image] {
          Report(ContainerNotRelated(image));
          tail := tail + [ContainerNotRelated(image)];
        }
        todo := todo - {image};
      }
    }

    /** The passes in order. */
    method Validate(isDigest: string -> bool, csv: Csv) returns (ghost tail: seq<Error>)
      requires errors == []
      modifies this
      ensures errors == Reported(isDigest, csv) + tail && IsTail(csv, tail)
    {
      var containerImages := ValidateContainerImages(isDigest, csv.deployments);
      assert errors == ContainerErrors(isDigest, Containers(csv.deployments));
      var relatedImages, matched := ValidateRelatedImages(isDigest, csv.relatedImages, containerImages);
      ValidateEnvVars(isDigest, csv.deployments, relatedImages);
      assert errors == Reported(isDigest, csv);
      tail := ReportUnmatched(matched);
      TailOfMatched(csv, matched, tail);
    }
  }

  /** The names seen are those of the RELATED_IMAGE_ variables before `k`. */
  ghost predicate SeenBefore(c: Container, k: nat, seen: seq<string>)
    requires k <= |c.env|
  {
    && (forall m | 0 <= m < k && IsRelatedVar(c.env[m]) :: c.env[m].name in seen)
    && (forall name | name in seen :: exists m :: 0 <= m < k && c.env[m].name == name)
  }

  /** `validateCSVData`; `None` stands for a document that does not parse. The three passes report
      in order, message by message; the last loop visits a map, in an order Go leaves open. */
  method ValidateCSVData(isDigest: string -> bool, document: Option<Csv>) returns (result: ManifestResult)
    ensures fresh(result)
    ensures document.None? ==> result.errors == [ParseFailure]
    ensures document.Some? ==>
              exists tail :: IsTail(document.value, tail) && result.errors == Reported(isDigest, document.value) + tail
    ensures document.Some? ==> forall e :: e in result.errors <==> Violation(isDigest, document.value, e)
    ensures document.Some? ==> (result.errors == [] <==> Conforms(isDigest, document.value))
  {
    result := new ManifestResult();
    if document.None? {
      result.Report(ParseFailure);
      return;
    }
    ghost var tail := result.Validate(isDigest, document.value);
    ReportComplete(isDigest, document.value, tail);
  }

  lemma TailOfMatched(csv: Csv, matched: map<string, bool>, tail: seq<Error>)
    requires matched.Keys == ImageMap(Containers(csv.deployments)).Keys
    requires forall x | x in matched ::
               matched[x] == (ImageMap(Containers(csv.deployments))[x] || x in ImageSet(csv.relatedImages))
    requires forall i, j | 0 <= i < j < |tail| :: tail[i] != tail[j]
    requires forall e :: e in tail <==> e.ContainerNotRelated? && e.image in matched && !matched[e.image]
    ensures IsTail(csv, tail)
  {
    forall x ensures x in Unmatched(csv) <==> x in matched && !matched[x] {
      ImageMapHolds(Containers(csv.deployments), x);
    }
  }

  lemma ReportComplete(isDigest: string -> bool, csv: Csv, tail: seq<Error>)
    requires IsTail(csv, tail)
    ensures forall e :: e in Reported(isDigest, csv) + tail <==> Violation(isDigest, csv, e)
    ensures Reported(isDigest, csv) + tail == [] <==> Conforms(isDigest, csv)
  {
    var errors := Reported(isDigest, csv) + tail;
    forall e ensures e in errors <==> Violation(isDigest, csv, e) {
      ReportIsViolations(isDigest, csv, tail, e);
    }
    ConformsIffNoViolation(isDigest, csv);
    assert errors != [] ==> errors[0] in errors;
  }

  /** No variable of that form escapes, whatever follows the prefix, in whichever container. */
  lemma EveryVariableInspected(isDigest: string -> bool, csv: Csv, tail: seq<Error>, d: Deployment, c: Container,
                               k: nat, suffix: string)
    requires IsTail(csv, tail) && d in csv.deployments && (c in d.containers || c in d.initContainers)
    requires k < |c.env| && c.env[k].name == "RELATED_IMAGE_" + suffix
    ensures var v, report := c.env[k], Reported(isDigest, csv) + tail;
            && (!isDigest(v.value) ==> NotDigest(v.value) in report)
            && if exists j :: 0 <= j < k && c.env[j].name == v.name then DuplicateEnv(v.name, c.name) in report
               else (forall i | 0 <= i < |csv.relatedImages| :: csv.relatedImages[i].image != v.value) ==>
                      EnvNotRelated(v.name, v.value) in report
  {
    var v := c.env[k];
    ReportComplete(isDigest, csv, tail);
    assert VarOfBundle(csv, c, k);
    assert !isDigest(v.value) ==> Violation(isDigest, csv, NotDigest(v.value));
    if exists j :: 0 <= j < k && c.env[j].name == v.name {
      assert Violation(isDigest, csv, DuplicateEnv(v.name, c.name));
    } else if !ImagesAre(csv, v.value) {
      assert Violation(isDigest, csv, EnvNotRelated(v.name, v.value));
    }
  }
}
