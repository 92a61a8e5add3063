/** Runs of operations on distinct keys: cutting, retrying, counting and commuting them. */
module OpRuns {
  import opened Prelude
  import opened Metadata
  import opened Objects
  import opened Cluster
  import opened Server

  datatype Synced = Synced(store: Store, err: Option<Error>)

  /** The operations in order with no failing call. */
  function Sync(c: Store, ops: seq<Op>): Synced
    decreases |ops|
  {
    if ops == [] then Synced(c, None)
    else
      match ApplyOp(c, ops[0])
      case Err(e) => Synced(c, Some(e))
      case Ok(d) => Sync(d, ops[1..])
  }

  predicate DistinctKeys(ops: seq<Op>) {
    forall i, j :: 0 <= i < j < |ops| ==> ops[i].key != ops[j].key
  }

  predicate AllSettled(c: Store, ops: seq<Op>) {
    forall i :: 0 <= i < |ops| ==> Settled(c, ops[i])
  }

  lemma {:induction false} SyncAppend(c: Store, a: seq<Op>, b: seq<Op>)
    ensures Sync(c, a + b) == if Sync(c, a).err.Some? then Sync(c, a) else Sync(Sync(c, a).store, b)
    decreases |a|
  {
    if a == [] {
      assert a + b == b;
    } else {
      assert (a + b)[0] == a[0] && (a + b)[1..] == a[1..] + b;
      if ApplyOp(c, a[0]).Ok? { SyncAppend(ApplyOp(c, a[0]).value, a[1..], b); }
    }
  }

  lemma {:induction false} HealthyRun(world: World, ops: seq<Op>)
    requires world.faults == []
    ensures RunOps(world, ops) == Ran(world.(store := Sync(world.store, ops).store), Sync(world.store, ops).err)
    decreases |ops|
  {
    if ops == [] {
    } else {
      CallIsAllOrNothing(world.store, [], ops[0]);
      if ApplyOp(world.store, ops[0]).Ok? { HealthyRun(Perform(world, ops[0]).world, ops[1..]); }
    }
  }

  /** A run under any fault script leaves the store as some prefix of the operations does. */
  lemma {:induction false} FaultyRunIsPrefix(world: World, ops: seq<Op>) returns (k: nat)
    ensures k <= |ops| && Sync(world.store, ops[..k]) == Synced(RunOps(world, ops).world.store, None)
    ensures RunOps(world, ops).err.None? ==> k == |ops|
    ensures RunOps(world, ops).world ==
            world.(store := RunOps(world, ops).world.store, faults := RunOps(world, ops).world.faults)
    ensures |RunOps(world, ops).world.faults| <= |world.faults|
    decreases |ops|
  {
    if ops == [] {
      return 0;
    }
    var first := Perform(world, ops[0]);
    CallIsAllOrNothing(world.store, world.faults, ops[0]);
    assert ops[..1][0] == ops[0] && ops[..1][1..] == [];
    if first.err.None? {
      var k' := FaultyRunIsPrefix(first.world, ops[1..]);
      k := k' + 1;
      assert ops[..k][0] == ops[0] && ops[..k][1..] == ops[1..][..k'];
    } else if first.world.store == world.store {
      k := 0;
    } else {
      k := 1;
    }
  }

  lemma {:induction false} SyncFrame(c: Store, ops: seq<Op>, key: Key)
    requires forall i :: 0 <= i < |ops| ==> ops[i].key != key
    ensures ObjectAt(Sync(c, ops).store, key) == ObjectAt(c, key)
    ensures Sync(c, ops).store.istioServed == c.istioServed
    decreases |ops|
  {
    if ops == [] {
    } else if ApplyOp(c, ops[0]).Ok? {
      ApplySettles(c, ops[0]);
      SyncFrame(ApplyOp(c, ops[0]).value, ops[1..], key);
    }
  }

  /** Operations keep an unrelated operation settled. */
  lemma SyncKeepsSettled(c: Store, ops: seq<Op>, op: Op)
    requires forall i :: 0 <= i < |ops| ==> ops[i].key != op.key
    ensures Settled(Sync(c, ops).store, op) <==> Settled(c, op)
  {
    SyncFrame(c, ops, op.key);
    SettledFrame(c, Sync(c, ops).store, op);
  }

  /** A completed run has settled every key. */
  lemma {:induction false} SyncSettles(c: Store, ops: seq<Op>)
    requires DistinctKeys(ops) && Sync(c, ops).err.None?
    ensures AllSettled(Sync(c, ops).store, ops)
    decreases |ops|
  {
    if ops == [] {
    } else {
      var d := ApplyOp(c, ops[0]).value;
      ApplySettles(c, ops[0]);
      SyncSettles(d, ops[1..]);
      SyncKeepsSettled(d, ops[1..], ops[0]);
      assert forall i :: 0 < i < |ops| ==> ops[i] == ops[1..][i - 1];
    }
  }

  lemma {:induction false} SyncOfSettled(c: Store, ops: seq<Op>)
    requires AllSettled(c, ops)
    ensures Sync(c, ops) == Synced(c, None)
    decreases |ops|
  {
    if ops == [] {
    } else {
      SettledIffNoWrite(c, ops[0]);
      SyncOfSettled(c, ops[1..]);
    }
  }

  /** Cutting a run after any operation and starting over reaches what the uninterrupted run reaches. */
  lemma RetryCompletes(c: Store, ops: seq<Op>, k: nat)
    requires DistinctKeys(ops) && k <= |ops| && Sync(c, ops[..k]).err.None?
    ensures Sync(Sync(c, ops[..k]).store, ops) == Sync(c, ops)
  {
    var cut := Sync(c, ops[..k]).store;
    assert ops == ops[..k] + ops[k..];
    SyncSettles(c, ops[..k]);
    SyncOfSettled(cut, ops[..k]);
    SyncAppend(c, ops[..k], ops[k..]);
    SyncAppend(cut, ops[..k], ops[k..]);
  }

  /** How many keys are out of sync. */
  function Unsettled(c: Store, ops: seq<Op>): nat {
    if ops == [] then 0 else (if Settled(c, ops[0]) then 0 else 1) + Unsettled(c, ops[1..])
  }

  lemma {:induction false} UnsettledZero(c: Store, ops: seq<Op>)
    ensures Unsettled(c, ops) == 0 <==> AllSettled(c, ops)
  {
    if ops == [] {
    } else {
      UnsettledZero(c, ops[1..]);
      assert forall i :: 0 < i < |ops| ==> ops[i] == ops[1..][i - 1];
      assert AllSettled(c, ops) ==> forall i :: 0 <= i < |ops[1..]| ==> ops[1..][i] == ops[i + 1];
    }
  }

  lemma {:induction false} UnsettledMonotone(c: Store, d: Store, ops: seq<Op>)
    requires forall i :: 0 <= i < |ops| && Settled(c, ops[i]) ==> Settled(d, ops[i])
    ensures Unsettled(d, ops) <= Unsettled(c, ops)
  {
    if ops == [] {
    } else {
      assert forall i :: 0 <= i < |ops[1..]| ==> ops[1..][i] == ops[i + 1];
      UnsettledMonotone(c, d, ops[1..]);
    }
  }

  /** A run over settled keys makes one call for each and changes nothing. */
  lemma {:induction false} SettledRunOnlyLooks(world: World, ops: seq<Op>)
    requires AllSettled(world.store, ops) && HealthyFor(world.faults, |ops|)
    ensures RunOps(world, ops) == Ran(world.(faults := AfterCalls(world.faults, |ops|)), None)
    decreases |ops|
  {
    if ops == [] {
    } else {
      SettledOpIsOneCall(world.store, world.faults, ops[0]);
      assert forall i :: 0 <= i < |ops[1..]| ==> ops[1..][i] == ops[i + 1];
      SettledRunOnlyLooks(Tick(world), ops[1..]);
    }
  }

  /** No run, however it fails, unsettles a key. */
  lemma RunNeverUnsettles(world: World, ops: seq<Op>, i: nat)
    requires DistinctKeys(ops) && i < |ops| && Settled(world.store, ops[i])
    ensures Settled(RunOps(world, ops).world.store, ops[i])
  {
    var k := FaultyRunIsPrefix(world, ops);
    if i < k {
      SyncSettles(world.store, ops[..k]);
      assert ops[..k][i] == ops[i];
    } else {
      SyncKeepsSettled(world.store, ops[..k], ops[i]);
    }
  }

  /** Neither list writes a key, or the namespace of a key, that the other one uses. */
  predicate Independent(a: seq<Op>, b: seq<Op>) {
    forall i, j :: 0 <= i < |a| && 0 <= j < |b| ==> Apart(a[i], b[j])
  }

  predicate Apart(x: Op, y: Op) {
    x.key != y.key && x.key != NamespaceKey(y.key.namespace) && y.key != NamespaceKey(x.key.namespace)
  }

  lemma ApplyCommutes(c: Store, x: Op, y: Op)
    requires Apart(x, y) && ApplyOp(c, x).Ok?
    ensures match ApplyOp(c, y)
            case Err(e) => ApplyOp(ApplyOp(c, x).value, y) == Err(e)
            case Ok(d) => ApplyOp(d, x).Ok? && ApplyOp(ApplyOp(c, x).value, y) == ApplyOp(d, x)
  {
    var cx := ApplyOp(c, x).value;
    assert ObjectAt(cx, y.key) == ObjectAt(c, y.key);
    assert ApplyOp(c, y).Ok? ==> ObjectAt(ApplyOp(c, y).value, x.key) == ObjectAt(c, x.key);
    if ApplyOp(c, y).Ok? {
      var cy := ApplyOp(c, y).value;
      match (x, y)
      case (Remove(k), Remove(l)) => assert c.objects - {k} - {l} == c.objects - {l} - {k};
      case (Ensure(k, m), Remove(l)) =>
        assert cx.objects - {l} == cy.objects[k := cx.objects[k]];
      case (Remove(k), Ensure(l, m)) =>
        assert cy.objects - {k} == cx.objects[l := cy.objects[l]];
      case (Ensure(k, m), Ensure(l, n)) =>
        assert cx.objects[l := cy.objects[l]] == cy.objects[k := cx.objects[k]];
    }
  }

  lemma {:induction false} ApplyPastSync(c: Store, x: Op, b: seq<Op>)
    requires forall j :: 0 <= j < |b| ==> Apart(x, b[j])
    requires ApplyOp(c, x).Ok?
    ensures Sync(ApplyOp(c, x).value, b).err == Sync(c, b).err
    ensures ApplyOp(Sync(c, b).store, x) == Ok(Sync(ApplyOp(c, x).value, b).store)
    decreases |b|
  {
    if b == [] {
    } else {
      ApplyCommutes(c, x, b[0]);
      if ApplyOp(c, b[0]).Ok? { ApplyPastSync(ApplyOp(c, b[0]).value, x, b[1..]); }
    }
  }

  lemma {:induction false} FailurePersists(c: Store, x: Op, b: seq<Op>)
    requires forall j :: 0 <= j < |b| ==> Apart(x, b[j])
    requires ApplyOp(c, x).Err?
    ensures ApplyOp(Sync(c, b).store, x) == ApplyOp(c, x)
    decreases |b|
  {
    if b == [] {
    } else if ApplyOp(c, b[0]).Ok? {
      ApplySettles(c, b[0]);
      FailurePersists(ApplyOp(c, b[0]).value, x, b[1..]);
    }
  }

  /** Independent runs commute: same final store, same errors, in either order. */
  lemma {:induction false} IndependentRunsCommute(c: Store, a: seq<Op>, b: seq<Op>)
    requires Independent(a, b)
    ensures Sync(Sync(c, a).store, b).store == Sync(Sync(c, b).store, a).store
    ensures Sync(Sync(c, a).store, b).err == Sync(c, b).err && Sync(Sync(c, b).store, a).err == Sync(c, a).err
    decreases |a|
  {
    if a == [] {
    } else {
      assert forall j :: 0 <= j < |b| ==> Apart(a[0], b[j]);
      if ApplyOp(c, a[0]).Ok? {
        ApplyPastSync(c, a[0], b);
        assert forall i :: 0 <= i < |a[1..]| ==> a[1..][i] == a[i + 1];
        IndependentRunsCommute(ApplyOp(c, a[0]).value, a[1..], b);
      } else {
        FailurePersists(c, a[0], b);
      }
    }
  }
}
