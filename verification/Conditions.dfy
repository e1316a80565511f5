/** Condition lists, and the library call that updates them in place. */
module Conditions {
  import opened Strings

  /** Wall-clock time; 0 is the zero `metav1.Time`. */
  type Time = nat

  datatype ConditionStatus = True | False | Unknown

  datatype Condition = Condition(
    kind: string,
    status: ConditionStatus,
    reason: string,
    message: string,
    observedGeneration: nat,
    lastTransitionTime: Time)

  const AVAILABLE := "Available"
  const PROGRESSING := "Progressing"
  const DEGRADED := "Degraded"

  lemma KindsDiffer()
    ensures AVAILABLE != PROGRESSING && AVAILABLE != DEGRADED && PROGRESSING != DEGRADED
  {
  }

  /** The first condition of a type, as `meta.FindStatusCondition` returns it. */
  function Find(cs: seq<Condition>, kind: string): (c: Option<Condition>)
    ensures c.Some? ==> c.value in cs && c.value.kind == kind
    ensures c.None? <==> forall d | d in cs :: d.kind != kind
  {
    if |cs| == 0 then None
    else if cs[0].kind == kind then Some(cs[0])
    else
      assert forall d | d in cs :: d == cs[0] || d in cs[1..];
      Find(cs[1..], kind)
  }

  predicate UniqueKinds(cs: seq<Condition>) {
    forall i, j | 0 <= i < j < |cs| :: cs[i].kind != cs[j].kind
  }

  function Stamp(c: Condition, now: Time): Condition {
    if c.lastTransitionTime == 0 then c.(lastTransitionTime := now) else c
  }

  /** The entry `was` after `c` is written over it: the time moves only with the status. */
  function Overwrite(was: Condition, c: Condition, now: Time): Condition {
    if was.status == c.status then c.(lastTransitionTime := was.lastTransitionTime) else Stamp(c, now)
  }

  /** `meta.SetStatusCondition` on the list. */
  function Set(cs: seq<Condition>, c: Condition, now: Time): (r: seq<Condition>)
    ensures |cs| <= |r| <= |cs| + 1
  {
    if |cs| == 0 then [Stamp(c, now)]
    else if cs[0].kind == c.kind then [Overwrite(cs[0], c, now)] + cs[1..]
    else [cs[0]] + Set(cs[1..], c, now)
  }

  lemma {:induction false} SetAt(cs: seq<Condition>, c: Condition, now: Time, i: nat)
    requires i <= |cs| && (forall j | 0 <= j < i :: cs[j].kind != c.kind)
    requires i < |cs| ==> cs[i].kind == c.kind
    ensures Set(cs, c, now) == if i == |cs| then cs + [Stamp(c, now)] else cs[i := Overwrite(cs[i], c, now)]
  {
    if i == 0 {
    } else {
      var rest := cs[1..];
      SetAt(rest, c, now, i - 1);
      assert Set(cs, c, now) == [cs[0]] + Set(rest, c, now);
      if i == |cs| {
        assert cs + [Stamp(c, now)] == [cs[0]] + (rest + [Stamp(c, now)]);
      } else {
        assert cs[i := Overwrite(cs[i], c, now)] == [cs[0]] + rest[i - 1 := Overwrite(cs[i], c, now)];
      }
    }
  }

  /** `meta.SetStatusCondition`: find by type; append when absent; otherwise update the
      entry field by field, moving its time only with its status; report a change. */
  method SetStatusCondition(conditions: seq<Condition>, c: Condition, now: Time)
      returns (updated: seq<Condition>, changed: bool)
    ensures updated == Set(conditions, c, now)
    ensures changed <==> updated != conditions
  {
    var i := 0;
    while i < |conditions| && conditions[i].kind != c.kind
      invariant i <= |conditions|
      invariant forall j | 0 <= j < i :: conditions[j].kind != c.kind
    {
      i := i + 1;
    }
    SetAt(conditions, c, now, i);
    if i == |conditions| {
      updated := conditions + [Stamp(c, now)];
      changed := true;
      return;
    }
    var existing := conditions[i];
    changed := false;
    if existing.status != c.status {
      existing := existing.(status := c.status);
      existing := existing.(lastTransitionTime := if c.lastTransitionTime != 0 then c.lastTransitionTime else now);
      changed := true;
    }
    if existing.reason != c.reason {
      existing := existing.(reason := c.reason);
      changed := true;
    }
    if existing.message != c.message {
      existing := existing.(message := c.message);
      changed := true;
    }
    if existing.observedGeneration != c.observedGeneration {
      existing := existing.(observedGeneration := c.observedGeneration);
      changed := true;
    }
    updated := conditions[i := existing];
    assert existing == Overwrite(conditions[i], c, now);
    assert updated[i] == existing;
  }

  /** What a write of `c` makes of the entry of its type. */
  function Written(was: Option<Condition>, c: Condition, now: Time): Condition {
    if was.Some? then Overwrite(was.value, c, now) else Stamp(c, now)
  }

  /** A write changes the entry of its own type and no other, wherever they stand. */
  lemma {:induction false} FindSet(cs: seq<Condition>, c: Condition, now: Time, kind: string)
    ensures Find(Set(cs, c, now), kind) ==
            if kind == c.kind then Some(Written(Find(cs, kind), c, now)) else Find(cs, kind)
  {
    if cs == [] {
      assert Find([], kind) == None;
      assert Find([Stamp(c, now)][1..], kind) == None;
    } else if cs[0].kind != c.kind {
      FindSet(cs[1..], c, now, kind);
      assert Set(cs, c, now)[1..] == Set(cs[1..], c, now);
    } else {
      assert Set(cs, c, now)[1..] == cs[1..];
    }
  }

  lemma {:induction false} SetMembers(cs: seq<Condition>, c: Condition, now: Time, d: Condition)
    requires d in Set(cs, c, now) && d.kind != c.kind
    ensures d in cs
  {
    if cs == [] {
    } else if cs[0].kind != c.kind && d != cs[0] {
      SetMembers(cs[1..], c, now, d);
    }
  }

  lemma {:induction false} SetUnique(cs: seq<Condition>, c: Condition, now: Time)
    requires UniqueKinds(cs)
    ensures UniqueKinds(Set(cs, c, now))
  {
    if cs == [] {
    } else if cs[0].kind != c.kind {
      SetUnique(cs[1..], c, now);
      var t := Set(cs[1..], c, now);
      forall j | 0 <= j < |t| ensures t[j].kind != cs[0].kind {
        if t[j].kind != c.kind {
          SetMembers(cs[1..], c, now, t[j]);
        }
      }
    }
  }

  lemma FindUnique(cs: seq<Condition>, d: Condition)
    requires UniqueKinds(cs) && d in cs
    ensures Find(cs, d.kind) == Some(d)
  {
  }

  /** A write that agrees with the entry it finds changes nothing. */
  lemma {:induction false} SetNoChange(cs: seq<Condition>, c: Condition, now: Time)
    ensures Set(cs, c, now) == cs <==>
            Find(cs, c.kind).Some? && Written(Find(cs, c.kind), c, now) == Find(cs, c.kind).value
  {
    if cs == [] {
    } else if cs[0].kind == c.kind {
      assert Set(cs, c, now)[0] == Overwrite(cs[0], c, now);
      assert cs == [cs[0]] + cs[1..];
    } else {
      SetNoChange(cs[1..], c, now);
      assert cs == [cs[0]] + cs[1..];
      assert Set(cs, c, now)[1..] == Set(cs[1..], c, now);
    }
  }
}
