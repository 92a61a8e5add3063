/** Status conditions: setting one, and the sorted list that both controllers publish. */
module Conditions {
  import opened Prelude

  datatype ConditionStatus = True | False | Unknown

  datatype Condition = Condition(
    conditionType: string,
    status: ConditionStatus,
    reason: string,
    message: string,
    observedGeneration: nat,
    transition: nat)

  const READY := "Ready"

  predicate UniqueTypes(cs: seq<Condition>) {
    cs != [] ==>
      (forall x :: x in cs[1..] ==> x.conditionType != cs[0].conditionType) && UniqueTypes(cs[1..])
  }

  function Find(cs: seq<Condition>, conditionType: string): Option<Condition> {
    if cs == [] then None
    else if cs[0].conditionType == conditionType then Some(cs[0])
    else Find(cs[1..], conditionType)
  }

  /** Ready says just this, for this generation. */
  predicate ReadySays(cs: seq<Condition>, status: ConditionStatus, reason: string, message: string, generation: nat) {
    var ready := Find(cs, "Ready");
    ready.Some? && ready.value.status == status && ready.value.reason == reason && ready.value.message == message
    && ready.value.observedGeneration == generation
  }

  /** Two conditions that say the same thing; the transition time is bookkeeping. */
  predicate SameReport(a: Condition, b: Condition) {
    a.(transition := b.transition) == b
  }

  /** Updates the condition of that type in place or appends it; the time moves only with the status. */
  function SetStatusCondition(cs: seq<Condition>, c: Condition, now: nat): seq<Condition> {
    if cs == [] then [c.(transition := now)]
    else if cs[0].conditionType == c.conditionType then
      [c.(transition := if cs[0].status == c.status then cs[0].transition else now)] + cs[1..]
    else [cs[0]] + SetStatusCondition(cs[1..], c, now)
  }

  /** The transition time moves to now exactly when the status of that type changes. */
  lemma {:induction false} TransitionMovesWithStatus(cs: seq<Condition>, c: Condition, now: nat)
    ensures var was := Find(cs, c.conditionType);
      Find(SetStatusCondition(cs, c, now), c.conditionType) ==
        Some(c.(transition := if was.Some? && was.value.status == c.status then was.value.transition else now))
  {
    if cs == [] {
    } else if cs[0].conditionType != c.conditionType {
      TransitionMovesWithStatus(cs[1..], c, now);
      assert SetStatusCondition(cs, c, now)[1..] == SetStatusCondition(cs[1..], c, now);
    }
  }

  /** Bytewise lexicographic order, as `cmp.Compare` on strings. */
  predicate Before(a: string, b: string) {
    b != [] && (a == [] || a[0] < b[0] || (a[0] == b[0] && Before(a[1..], b[1..])))
  }

  lemma {:induction false} BeforeIsTotalOrder(a: string, b: string, c: string)
    ensures !(Before(a, b) && Before(b, a))
    ensures a != b ==> Before(a, b) || Before(b, a)
    ensures Before(a, b) && Before(b, c) ==> Before(a, c)
    ensures !Before(a, a)
    decreases |a| + |b| + |c|
  {
    if a == [] {
    } else if b != [] && c != [] {
      BeforeIsTotalOrder(a[1..], b[1..], c[1..]);
    } else if a != [] && b != [] {
      BeforeIsTotalOrder(a[1..], b[1..], c);
    } else if a != [] {
      BeforeIsTotalOrder(a[1..], b, c);
    }
    if a == [] {
    } else if b != [] && a[0] == b[0] && a[1..] == b[1..] {
      assert a == [a[0]] + a[1..] && b == [b[0]] + b[1..];
    }
  }

  /** Smaller at the first difference, where the end of a string counts as smallest. */
  lemma {:induction false} BeforeAtFirstDifference(a: string, b: string)
    ensures Before(a, b) <==>
      exists k :: 0 <= k <= |a| && k < |b| && a[..k] == b[..k] && (k == |a| || a[k] < b[k])
  {
    if a == [] || b == [] || a[0] != b[0] {
      assert b != [] && (a == [] || a[0] < b[0]) ==> a[..0] == b[..0];
      forall k | 0 < k <= |a| && k < |b| ensures a[..k] != b[..k] {
        assert a[..k][0] == a[0] && b[..k][0] == b[0];
      }
    } else {
      BeforeAtFirstDifference(a[1..], b[1..]);
      forall k | 0 <= k < |a| && k < |b| - 1 ensures a[1..][..k] == b[1..][..k] <==> a[..k + 1] == b[..k + 1] {
        assert a[..k + 1] == [a[0]] + a[1..][..k] && b[..k + 1] == [b[0]] + b[1..][..k];
      }
      if k :| 0 <= k <= |a| && k < |b| && a[..k] == b[..k] && (k == |a| || a[k] < b[k]) {
        assert k > 0;
        assert a[1..][..k - 1] == b[1..][..k - 1];
      }
    }
  }

  /** Strictly increasing by type: sorted and without repeated types. */
  predicate Canonical(cs: seq<Condition>) {
    |cs| > 1 ==> Before(cs[0].conditionType, cs[1].conditionType) && Canonical(cs[1..])
  }

  function Insert(c: Condition, cs: seq<Condition>): seq<Condition> {
    if cs == [] || !Before(cs[0].conditionType, c.conditionType) then [c] + cs
    else [cs[0]] + Insert(c, cs[1..])
  }

  function SortByType(cs: seq<Condition>): seq<Condition> {
    if cs == [] then [] else Insert(cs[0], SortByType(cs[1..]))
  }

  /** What both `updateStatus` functions store as the condition list. */
  function Publish(cs: seq<Condition>, c: Condition, now: nat): seq<Condition> {
    SortByType(SetStatusCondition(cs, c, now))
  }

  lemma {:induction false} InsertMembers(c: Condition, cs: seq<Condition>)
    ensures multiset(Insert(c, cs)) == multiset(cs) + multiset{c}
  {
    if cs == [] {
    } else {
      assert cs == [cs[0]] + cs[1..];
      if Before(cs[0].conditionType, c.conditionType) {
        InsertMembers(c, cs[1..]);
      }
    }
  }

  lemma {:induction false} SortIsPermutation(cs: seq<Condition>)
    ensures multiset(SortByType(cs)) == multiset(cs)
  {
    if cs == [] {
    } else {
      assert cs == [cs[0]] + cs[1..];
      SortIsPermutation(cs[1..]);
      InsertMembers(cs[0], SortByType(cs[1..]));
    }
  }

  lemma {:induction false} InsertCanonical(c: Condition, cs: seq<Condition>)
    requires Canonical(cs)
    requires forall x :: x in cs ==> x.conditionType != c.conditionType
    ensures Canonical(Insert(c, cs))
    ensures Insert(c, cs)[0] == c || (cs != [] && Insert(c, cs)[0] == cs[0])
  {
    if cs == [] {
    } else {
      BeforeIsTotalOrder(c.conditionType, cs[0].conditionType, "");
      if Before(cs[0].conditionType, c.conditionType) {
        InsertCanonical(c, cs[1..]);
        assert ([cs[0]] + Insert(c, cs[1..]))[1..] == Insert(c, cs[1..]);
      } else {
        assert ([c] + cs)[1..] == cs;
      }
    }
  }

  lemma {:induction false} SortCanonical(cs: seq<Condition>)
    requires UniqueTypes(cs)
    ensures Canonical(SortByType(cs))
  {
    if cs == [] {
    } else {
      SortCanonical(cs[1..]);
      SortIsPermutation(cs[1..]);
      forall x | x in SortByType(cs[1..]) ensures x.conditionType != cs[0].conditionType {
        assert x in multiset(cs[1..]);
      }
      InsertCanonical(cs[0], SortByType(cs[1..]));
    }
  }

  lemma {:induction false} CanonicalHeadIsLeast(cs: seq<Condition>, x: Condition)
    requires Canonical(cs) && cs != [] && x in cs
    ensures x == cs[0] || Before(cs[0].conditionType, x.conditionType)
  {
    if x != cs[0] {
      assert cs == [cs[0]] + cs[1..];
      CanonicalHeadIsLeast(cs[1..], x);
      BeforeIsTotalOrder(cs[0].conditionType, cs[1].conditionType, x.conditionType);
    }
  }

  lemma SameHead(a: seq<Condition>, b: seq<Condition>)
    requires Canonical(a) && Canonical(b) && multiset(a) == multiset(b) && a != [] && b != []
    ensures a[0] == b[0]
  {
    assert b[0] in multiset(b) && a[0] in multiset(a);
    CanonicalHeadIsLeast(a, b[0]);
    CanonicalHeadIsLeast(b, a[0]);
    BeforeIsTotalOrder(a[0].conditionType, b[0].conditionType, "");
  }

  lemma {:induction false} CanonicalIsUnique(a: seq<Condition>, b: seq<Condition>)
    requires Canonical(a) && Canonical(b) && multiset(a) == multiset(b)
    ensures a == b
  {
    if a == [] || b == [] {
      assert |multiset(a)| == |a| && |multiset(b)| == |b|;
    } else {
      assert a == [a[0]] + a[1..] && b == [b[0]] + b[1..];
      SameHead(a, b);
      assert multiset(a[1..]) == multiset(a) - multiset{a[0]} == multiset(b[1..]);
      CanonicalIsUnique(a[1..], b[1..]);
    }
  }

  lemma {:induction false} CanonicalHasUniqueTypes(cs: seq<Condition>)
    requires Canonical(cs)
    ensures UniqueTypes(cs)
  {
    if cs == [] {
    } else {
      CanonicalHasUniqueTypes(cs[1..]);
      forall x | x in cs[1..] ensures x.conditionType != cs[0].conditionType {
        CanonicalHeadIsLeast(cs[1..], x);
        BeforeIsTotalOrder(cs[0].conditionType, cs[1].conditionType, x.conditionType);
        BeforeIsTotalOrder(cs[0].conditionType, cs[0].conditionType, "");
      }
    }
  }

  /** Exactly the type of `c` changes, to `c` up to its time; other conditions are kept as they are. */
  lemma {:induction false} SetStatusConditionMembers(cs: seq<Condition>, c: Condition, now: nat)
    requires UniqueTypes(cs)
    ensures UniqueTypes(SetStatusCondition(cs, c, now))
    ensures forall x: Condition :: x.conditionType != c.conditionType ==>
        (x in SetStatusCondition(cs, c, now) <==> x in cs)
    ensures exists x :: x in SetStatusCondition(cs, c, now) && SameReport(x, c)
    ensures forall x :: x in SetStatusCondition(cs, c, now) && x.conditionType == c.conditionType ==> SameReport(x, c)
  {
    var r := SetStatusCondition(cs, c, now);
    if cs == [] {
      assert r[0] in r;
    } else {
      assert cs == [cs[0]] + cs[1..];
      if cs[0].conditionType == c.conditionType {
        assert r == [r[0]] + cs[1..] && r[1..] == cs[1..] && r[0] in r;
      } else {
        SetStatusConditionMembers(cs[1..], c, now);
        var r' := SetStatusCondition(cs[1..], c, now);
        assert r == [cs[0]] + r' && r[1..] == r';
        forall x | x in r' ensures x.conditionType != cs[0].conditionType {
          if x.conditionType != c.conditionType { assert x in cs[1..]; }
        }
      }
    }
  }

  /** The published list is sorted by type, with one Ready saying `c` and every other condition kept. */
  lemma PublishIsCanonical(cs: seq<Condition>, c: Condition, now: nat)
    requires UniqueTypes(cs)
    ensures Canonical(Publish(cs, c, now)) && UniqueTypes(Publish(cs, c, now))
    ensures forall x: Condition :: x.conditionType != c.conditionType ==> (x in Publish(cs, c, now) <==> x in cs)
    ensures exists x :: x in Publish(cs, c, now) && SameReport(x, c)
    ensures forall x :: x in Publish(cs, c, now) && x.conditionType == c.conditionType ==> SameReport(x, c)
    ensures Find(Publish(cs, c, now), c.conditionType).Some?
         && SameReport(Find(Publish(cs, c, now), c.conditionType).value, c)
  {
    var s := SetStatusCondition(cs, c, now);
    SetStatusConditionMembers(cs, c, now);
    SortCanonical(s);
    SortIsPermutation(s);
    CanonicalHasUniqueTypes(SortByType(s));
    assert forall x :: x in SortByType(s) <==> x in multiset(s);
    var x :| x in s && SameReport(x, c);
    assert x in multiset(s);
    FindIsMember(SortByType(s), x);
  }

  lemma {:induction false} FindIsMember(cs: seq<Condition>, x: Condition)
    requires UniqueTypes(cs) && x in cs
    ensures Find(cs, x.conditionType) == Some(x)
  {
    assert cs == [cs[0]] + cs[1..];
    if x != cs[0] {
      FindIsMember(cs[1..], x);
    }
  }

  lemma {:induction false} SetAgainIsIdentity(cs: seq<Condition>, c: Condition, now: nat)
    requires Find(cs, c.conditionType).Some? && SameReport(Find(cs, c.conditionType).value, c)
    ensures SetStatusCondition(cs, c, now) == cs
  {
    assert cs == [cs[0]] + cs[1..];
    if cs[0].conditionType != c.conditionType {
      SetAgainIsIdentity(cs[1..], c, now);
    }
  }

  /** A canonical list that already reports `c` is published unchanged, whatever the clock says. */
  lemma PublishFixedPoint(cs: seq<Condition>, c: Condition, now: nat)
    requires Canonical(cs)
    requires Find(cs, c.conditionType).Some? && SameReport(Find(cs, c.conditionType).value, c)
    ensures Publish(cs, c, now) == cs
  {
    SetAgainIsIdentity(cs, c, now);
    CanonicalHasUniqueTypes(cs);
    SortCanonical(cs);
    SortIsPermutation(cs);
    CanonicalIsUnique(SortByType(cs), cs);
  }

  /** Publishing the same report again, at any later time, changes nothing: no patch is sent. */
  lemma PublishIsIdempotent(cs: seq<Condition>, c: Condition, now: nat, later: nat)
    requires UniqueTypes(cs)
    ensures Publish(Publish(cs, c, now), c, later) == Publish(cs, c, now)
  {
    PublishIsCanonical(cs, c, now);
    PublishFixedPoint(Publish(cs, c, now), c, later);
  }

  /** The same conditions in the same order, transition times aside. */
  predicate SameReports(a: seq<Condition>, b: seq<Condition>) {
    |a| == |b| && forall i :: 0 <= i < |a| ==> SameReport(a[i], b[i])
  }

  /** The same conditions of every type but one. */
  ghost predicate SameOthers(a: seq<Condition>, b: seq<Condition>, conditionType: string) {
    forall x: Condition :: x.conditionType != conditionType ==> (x in a <==> x in b)
  }

  /** Both lists report the type alike, or neither has it. */
  predicate SameFound(a: seq<Condition>, b: seq<Condition>, conditionType: string) {
    (Find(a, conditionType).Some? <==> Find(b, conditionType).Some?)
    && (Find(a, conditionType).Some? ==> SameReport(Find(a, conditionType).value, Find(b, conditionType).value))
  }

  lemma {:induction false} FindInList(cs: seq<Condition>, conditionType: string)
    ensures Find(cs, conditionType).Some? ==>
              Find(cs, conditionType).value in cs && Find(cs, conditionType).value.conditionType == conditionType
    ensures Find(cs, conditionType).None? ==> forall x :: x in cs ==> x.conditionType != conditionType
  {
    if cs == [] {
    } else if cs[0].conditionType == conditionType {
    } else {
      assert cs == [cs[0]] + cs[1..];
      FindInList(cs[1..], conditionType);
    }
  }

  /** Every condition of one list has a counterpart of its type in the other. */
  lemma Counterpart(a: seq<Condition>, b: seq<Condition>, t: string, x: Condition)
    requires UniqueTypes(a) && SameOthers(a, b, t) && SameFound(a, b, t) && x in a
    ensures exists y :: y in b && SameReport(x, y)
  {
    if x.conditionType == t {
      FindIsMember(a, x);
      FindInList(b, t);
      assert SameReport(x, Find(b, t).value);
    } else {
      assert SameReport(x, x);
    }
  }

  lemma HeadsMeet(a: seq<Condition>, b: seq<Condition>, t: string)
    requires Canonical(a) && Canonical(b) && a != [] && b != []
    requires SameOthers(a, b, t) && SameFound(a, b, t) && SameOthers(b, a, t) && SameFound(b, a, t)
    ensures SameReport(a[0], b[0])
  {
    CanonicalHasUniqueTypes(a);
    CanonicalHasUniqueTypes(b);
    Counterpart(a, b, t, a[0]);
    Counterpart(b, a, t, b[0]);
    var y :| y in b && SameReport(a[0], y);
    var x :| x in a && SameReport(b[0], x);
    CanonicalHeadIsLeast(b, y);
    CanonicalHeadIsLeast(a, x);
    BeforeIsTotalOrder(a[0].conditionType, b[0].conditionType, "");
  }

  lemma TailsMeet(a: seq<Condition>, b: seq<Condition>, t: string)
    requires Canonical(a) && Canonical(b) && a != [] && b != [] && SameReport(a[0], b[0])
    requires SameOthers(a, b, t) && SameFound(a, b, t)
    ensures SameOthers(a[1..], b[1..], t) && SameFound(a[1..], b[1..], t)
  {
    CanonicalHasUniqueTypes(a);
    CanonicalHasUniqueTypes(b);
    assert a == [a[0]] + a[1..] && b == [b[0]] + b[1..];
    FindInList(a[1..], t);
    FindInList(b[1..], t);
    forall x: Condition | x.conditionType != t ensures x in a[1..] <==> x in b[1..] {
      assert x in a <==> x in b;
    }
  }

  /** Canonical lists that differ at most in when one type last changed are the same list up to times. */
  lemma {:induction false} CanonicalTwins(a: seq<Condition>, b: seq<Condition>, t: string)
    requires Canonical(a) && Canonical(b) && SameOthers(a, b, t) && SameFound(a, b, t)
    ensures SameReports(a, b)
  {
    CanonicalHasUniqueTypes(a);
    CanonicalHasUniqueTypes(b);
    assert SameOthers(b, a, t);
    if a == [] || b == [] {
      if a != [] { Counterpart(a, b, t, a[0]); }
      if b != [] { Counterpart(b, a, t, b[0]); }
    } else {
      HeadsMeet(a, b, t);
      TailsMeet(a, b, t);
      CanonicalTwins(a[1..], b[1..], t);
      assert a == [a[0]] + a[1..] && b == [b[0]] + b[1..];
    }
  }
}
