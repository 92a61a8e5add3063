/** The object store, the two idempotent writes the operator makes, and what a failing call does to them. */
module Cluster {
  import opened Prelude
  import opened Metadata
  import opened Objects

  datatype Error =
    | NamespaceConflict(namespace: string)
    | TemplateNotFound(template: string)
    | TemplateInvalid(template: string)
    | AlreadyOwned
    | NotFound
    | NoMatch
    | Forbidden
    | Transient

  /** `istioServed` says whether the Istio resource definitions are installed. */
  datatype Store = Store(objects: map<Key, Object>, istioServed: bool)

  predicate Serves(c: Store, kind: Kind) {
    IsIstio(kind) ==> c.istioServed
  }

  /** Removing a resource definition removes its objects. */
  predicate Coherent(c: Store) {
    forall k :: k in c.objects ==> Serves(c, k.kind)
  }

  function ObjectAt(c: Store, key: Key): Option<Object> {
    if key in c.objects then Some(c.objects[key]) else None
  }

  function FluxReadyOf(p: Payload): Option<FluxReady> {
    match p
    case HelmRelease(_, ready) => ready
    case Kustomization(_, ready) => ready
    case _ => None
  }

  /** The mutate functions that the operator passes to CreateOrUpdate. */
  datatype Mutation =
    | NamespaceMutation(owner: ControllerRef, labels: Labels, injectIstio: bool)
    | ChildMutation(owner: ControllerRef, labels: Labels, payload: Payload)
    | HelmMutation(owner: ControllerRef, labels: Labels, helm: HelmSpec)
    | KustomizationMutation(owner: ControllerRef, labels: Labels, path: string)

  const ISTIO_INJECTION := "istio-injection"

  function NamespaceLabels(existing: Labels, labels: Labels, injectIstio: bool): Labels {
    if injectIstio then (existing + labels)[ISTIO_INJECTION := "enabled"]
    else (existing + labels) - {ISTIO_INJECTION}
  }

  function Controlled(existing: Option<Object>, owner: ControllerRef, labels: Labels, payload: Payload)
    : Result<Object, Error>
  {
    match SetControllerReference(if existing.Some? then existing.value.owners else [], owner)
    case Some(owners) => Ok(Object(labels, owners, payload))
    case None => Err(AlreadyOwned)
  }

  /** The object to store for `existing`; Some is an object read from the server, None a fresh one. */
  function Mutate(m: Mutation, key: Key, existing: Option<Object>): Result<Object, Error> {
    var labels: Labels := if existing.Some? then existing.value.labels else map[];
    var ready := if existing.Some? then FluxReadyOf(existing.value.payload) else None;
    match m
    case NamespaceMutation(owner, std, injectIstio) =>
      if existing.Some? && !IsOwned(existing.value.owners, owner.uid) then Err(NamespaceConflict(key.name))
      else Controlled(existing, owner, NamespaceLabels(labels, std, injectIstio), NamespaceObject)
    case ChildMutation(owner, std, payload) => Controlled(existing, owner, std, payload)
    case HelmMutation(owner, std, helm) => Controlled(existing, owner, labels + std, HelmRelease(helm, ready))
    case KustomizationMutation(owner, std, path) =>
      Controlled(existing, owner, labels + std, Kustomization(path, ready))
  }

  /** CreateOrUpdate of one key, or Delete of one key. */
  datatype Op = Ensure(key: Key, mutation: Mutation) | Remove(key: Key)

  predicate MissingNamespace(c: Store, key: Key) {
    key !in c.objects && key.namespace != "" && NamespaceKey(key.namespace) !in c.objects
  }

  /** The effect of an operation none of whose calls fails. */
  function ApplyOp(c: Store, op: Op): Result<Store, Error> {
    match op
    case Remove(key) => Ok(c.(objects := c.objects - {key}))
    case Ensure(key, m) =>
      if !Serves(c, key.kind) then Err(NoMatch) else
      match Mutate(m, key, ObjectAt(c, key))
      case Err(e) => Err(e)
      case Ok(o) => if MissingNamespace(c, key) then Err(NotFound) else Ok(c.(objects := c.objects[key := o]))
  }

  /** The operation's key already is as the operation wants it. */
  predicate Settled(c: Store, op: Op) {
    match op
    case Remove(key) => key !in c.objects
    case Ensure(key, m) =>
      Serves(c, key.kind) && key in c.objects && Mutate(m, key, Some(c.objects[key])) == Ok(c.objects[key])
  }

  lemma MutateIsIdempotent(m: Mutation, key: Key, existing: Option<Object>)
    requires Mutate(m, key, existing).Ok?
    ensures Mutate(m, key, Some(Mutate(m, key, existing).value)) == Mutate(m, key, existing)
    ensures ControllerOf(Mutate(m, key, existing).value.owners) == Some(m.owner)
  {
    var owners := if existing.Some? then existing.value.owners else [];
    SetControllerSettles(owners, m.owner);
    SettledIsFixedPoint(SetControllerReference(owners, m.owner).value, m.owner);
    var l: Labels := if existing.Some? then existing.value.labels else map[];
    assert (l + m.labels) + m.labels == l + m.labels;
    if m.NamespaceMutation? {
      var l' := NamespaceLabels(l, m.labels, m.injectIstio);
      assert NamespaceLabels(l', m.labels, m.injectIstio) == l';
    }
  }

  lemma SettledController(c: Store, op: Op)
    requires op.Ensure? && Settled(c, op)
    ensures ControllerOf(c.objects[op.key].owners) == Some(op.mutation.owner)
    ensures IsOwned(c.objects[op.key].owners, op.mutation.owner.uid)
  {
    SettledIsFixedPoint(c.objects[op.key].owners, op.mutation.owner);
  }

  /** Settled is exactly "applying it writes nothing". */
  lemma SettledIffNoWrite(c: Store, op: Op)
    ensures Settled(c, op) <==> ApplyOp(c, op) == Ok(c)
  {
    match op
    case Remove(key) =>
      assert key in c.objects ==> key !in (c.objects - {key});
      assert key !in c.objects ==> c.objects - {key} == c.objects;
    case Ensure(key, m) =>
      if ApplyOp(c, op) == Ok(c) {
        var o := Mutate(m, key, ObjectAt(c, key)).value;
        assert key in c.objects[key := o];
      }
      if Settled(c, op) {
        assert c.objects[key := c.objects[key]] == c.objects;
      }
  }

  /** One operation settles its own key and leaves every other key alone. */
  lemma ApplySettles(c: Store, op: Op)
    requires ApplyOp(c, op).Ok?
    ensures Settled(ApplyOp(c, op).value, op)
    ensures ApplyOp(c, op).value.istioServed == c.istioServed
    ensures forall k :: k != op.key ==> ObjectAt(ApplyOp(c, op).value, k) == ObjectAt(c, k)
  {
    if op.Ensure? {
      MutateIsIdempotent(op.mutation, op.key, ObjectAt(c, op.key));
    }
  }

  lemma SettledFrame(c: Store, d: Store, op: Op)
    requires c.istioServed == d.istioServed && ObjectAt(c, op.key) == ObjectAt(d, op.key)
    ensures Settled(c, op) <==> Settled(d, op)
  {
  }

  /** What the API server and the mutate function let through. */
  lemma EnsureSucceedsIff(c: Store, key: Key, m: Mutation)
    ensures ApplyOp(c, Ensure(key, m)).Ok? <==>
      (key.kind in {PeerAuthenticationKind, AuthorizationPolicyKind} ==> c.istioServed)
      && (if key in c.objects then
            !ControlledByOther(c.objects[key].owners, m.owner.kind, m.owner.name)
            && (m.NamespaceMutation? ==> exists o :: o in c.objects[key].owners && o.uid == m.owner.uid)
          else key.namespace == "" || Key(NamespaceKind, "", key.namespace) in c.objects)
  {
    if key in c.objects {
      var owners := c.objects[key].owners;
      ControlRefusedIff(owners, m.owner);
      if o :| o in owners && o.uid == m.owner.uid {
        var i :| 0 <= i < |owners| && owners[i] == o;
        assert owners[i].uid == m.owner.uid;
      }
    } else {
      ControlRefusedIff([], m.owner);
    }
  }

  /** How the environment treats one API call: LostReply applies a write and still reports an error. */
  datatype Fault = Healthy | Rejected | LostReply

  function Head(faults: seq<Fault>): Fault {
    if faults == [] then Healthy else faults[0]
  }

  function Rest(faults: seq<Fault>): (r: seq<Fault>)
    ensures |r| <= |faults|
  {
    if faults == [] then [] else faults[1..]
  }

  datatype Called = Called(store: Store, faults: seq<Fault>, err: Option<Error>)

  /** One operation under a fault script: a Delete is one call, CreateOrUpdate a Get and perhaps a write. */
  function CallOp(c: Store, faults: seq<Fault>, op: Op): Called {
    var rest := Rest(faults);
    match op
    case Remove(key) => CallWrite(c, c.(objects := c.objects - {key}), faults)
    case Ensure(key, m) =>
      if Head(faults) != Healthy then Called(c, rest, Some(Transient))
      else if !Serves(c, key.kind) then Called(c, rest, Some(NoMatch))
      else
        match Mutate(m, key, ObjectAt(c, key))
        case Err(e) => Called(c, rest, Some(e))
        case Ok(o) =>
          if ObjectAt(c, key) == Some(o) then Called(c, rest, None)
          else if MissingNamespace(c, key) then
            Called(c, Rest(rest), Some(if Head(rest) == Healthy then NotFound else Transient))
          else CallWrite(c, c.(objects := c.objects[key := o]), rest)
  }

  function CallWrite(c: Store, written: Store, faults: seq<Fault>): Called {
    match Head(faults)
    case Healthy => Called(written, Rest(faults), None)
    case Rejected => Called(c, Rest(faults), Some(Transient))
    case LostReply => Called(written, Rest(faults), Some(Transient))
  }

  /** Whatever fails, the store is either untouched or as the operation leaves it, and success means the latter. */
  lemma CallIsAllOrNothing(c: Store, faults: seq<Fault>, op: Op)
    ensures CallOp(c, faults, op).store == c || ApplyOp(c, op) == Ok(CallOp(c, faults, op).store)
    ensures CallOp(c, faults, op).err.None? ==> ApplyOp(c, op) == Ok(CallOp(c, faults, op).store)
    ensures ApplyOp(c, op).Err? ==> CallOp(c, faults, op).store == c
    ensures faults == [] ==>
              CallOp(c, faults, op) == match ApplyOp(c, op)
                                       case Ok(d) => Called(d, [], None)
                                       case Err(e) => Called(c, [], Some(e))
  {
    if op.Ensure? && ObjectAt(c, op.key).Some? {
      assert c.objects[op.key := c.objects[op.key]] == c.objects;
    }
  }

  /** A settled operation costs one call, whatever that call meets: a read of the object, or a delete of nothing. */
  lemma SettledOpIsOneCall(c: Store, faults: seq<Fault>, op: Op)
    requires Settled(c, op)
    ensures CallOp(c, faults, op)
         == Called(c, Rest(faults), if Head(faults) == Healthy then None else Some(Transient))
  {
    assert op.Remove? ==> c.objects - {op.key} == c.objects;
  }

  /** The next `n` calls go well; what happens to later ones is open. */
  predicate HealthyFor(faults: seq<Fault>, n: nat) {
    n == 0 || (Head(faults) == Healthy && HealthyFor(Rest(faults), n - 1))
  }

  function AfterCalls(faults: seq<Fault>, n: nat): seq<Fault> {
    if n == 0 then faults else AfterCalls(Rest(faults), n - 1)
  }

  lemma {:induction false} NoFaults(n: nat)
    ensures HealthyFor([], n) && AfterCalls([], n) == []
  {
    if n > 0 {
      NoFaults(n - 1);
    }
  }
}
