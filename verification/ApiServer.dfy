/** The API server as the controllers see it: typed maps, one fault consumed by every call. */
module Server {
  import opened Prelude
  import opened Metadata
  import opened Objects
  import opened Cluster
  import opened Api

  /** A snapshot of the whole server. */
  datatype World = World(
    store: Store,
    faults: seq<Fault>,
    workspaces: map<string, Workspace>,
    modules: map<string, Module>,
    templates: map<string, ModuleTemplate>)

  /** The world after some calls, and the error they ended with. */
  datatype Ran = Ran(world: World, err: Option<Error>)

  function Perform(world: World, op: Op): Ran {
    var called := CallOp(world.store, world.faults, op);
    Ran(world.(store := called.store, faults := called.faults), called.err)
  }

  /** Operations in order, stopping at the first error. */
  function RunOps(world: World, ops: seq<Op>): Ran
    decreases |ops|
  {
    if ops == [] then Ran(world, None)
    else
      var first := Perform(world, ops[0]);
      if first.err.Some? then first else RunOps(first.world, ops[1..])
  }

  lemma {:induction false} RunOpsAppend(world: World, a: seq<Op>, b: seq<Op>)
    ensures RunOps(world, a + b) ==
      var first := RunOps(world, a); if first.err.Some? then first else RunOps(first.world, b)
    decreases |a|
  {
    if a == [] {
      assert a + b == b;
    } else {
      assert (a + b)[0] == a[0] && (a + b)[1..] == a[1..] + b;
      RunOpsAppend(Perform(world, a[0]).world, a[1..], b);
    }
  }

  function Tick(world: World): World {
    world.(faults := Rest(world.faults))
  }

  function GetObject(world: World, key: Key): Result<Object, Error> {
    if Head(world.faults) != Healthy then Err(Transient)
    else if !Serves(world.store, key.kind) then Err(NoMatch)
    else if key in world.store.objects then Ok(world.store.objects[key]) else Err(NotFound)
  }

  function GetTemplate(world: World, name: string): Result<ModuleTemplate, Error> {
    if Head(world.faults) != Healthy then Err(Transient)
    else if name in world.templates then Ok(world.templates[name]) else Err(NotFound)
  }

  /** A write to one of the operator's own resources, under the next fault. */
  function Commit(world: World, written: World): Ran {
    match Head(world.faults)
    case Healthy => Ran(Tick(written), None)
    case Rejected => Ran(Tick(world), Some(Transient))
    case LostReply => Ran(Tick(written), Some(Transient))
  }

  function WithWorkspaceStatus(world: World, name: string, base: WorkspaceStatus, desired: WorkspaceStatus): World
    requires name in world.workspaces
  {
    var w := world.workspaces[name];
    world.(workspaces := world.workspaces[name := w.(status := MergeStatus(w.status, base, desired))])
  }

  function PatchWorkspaceStatus(world: World, name: string, base: WorkspaceStatus, desired: WorkspaceStatus): Ran {
    if name !in world.workspaces then
      Ran(Tick(world), Some(if Head(world.faults) == Healthy then NotFound else Transient))
    else Commit(world, WithWorkspaceStatus(world, name, base, desired))
  }

  function WithModuleStatus(world: World, name: string, base: ModuleStatus, desired: ModuleStatus): World
    requires name in world.modules
  {
    var m := world.modules[name];
    world.(modules := world.modules[name := m.(status := MergeModuleStatus(m.status, base, desired))])
  }

  function PatchModuleStatus(world: World, name: string, base: ModuleStatus, desired: ModuleStatus): Ran {
    if name !in world.modules then
      Ran(Tick(world), Some(if Head(world.faults) == Healthy then NotFound else Transient))
    else Commit(world, WithModuleStatus(world, name, base, desired))
  }

  /** A deleting module disappears with its last finalizer. */
  function WithFinalizers(world: World, name: string, finalizers: set<string>): World
    requires name in world.modules
  {
    var m := world.modules[name];
    if m.deleting && finalizers == {} then world.(modules := world.modules - {name})
    else world.(modules := world.modules[name := m.(finalizers := finalizers)])
  }

  /** The finalizer list is replaced whole; a deleting module accepts no new finalizer. */
  function PatchFinalizers(world: World, name: string, finalizers: set<string>): Ran {
    if name !in world.modules then
      Ran(Tick(world), Some(if Head(world.faults) == Healthy then NotFound else Transient))
    else if world.modules[name].deleting && !(finalizers <= world.modules[name].finalizers) then
      Ran(Tick(world), Some(if Head(world.faults) == Healthy then Forbidden else Transient))
    else Commit(world, WithFinalizers(world, name, finalizers))
  }

  class ApiServer {
    var objects: map<Key, Object>
    var istioServed: bool
    var faults: seq<Fault>
    var workspaces: map<string, Workspace>
    var modules: map<string, Module>
    var templates: map<string, ModuleTemplate>

    ghost function Snapshot(): World
      reads this
    {
      World(Store(objects, istioServed), faults, workspaces, modules, templates)
    }

    ghost predicate Valid()
      reads this
    {
      Coherent(Store(objects, istioServed))
    }

    method NextFault() returns (f: Fault)
      modifies this`faults
      ensures f == Head(old(faults)) && Snapshot() == Tick(old(Snapshot()))
    {
      f := Head(faults);
      faults := Rest(faults);
    }

    method Get(key: Key) returns (r: Result<Object, Error>)
      modifies this`faults
      ensures Snapshot() == Tick(old(Snapshot()))
      ensures r == GetObject(old(Snapshot()), key)
    {
      var f := NextFault();
      if f != Healthy {
        r := Err(Transient);
      } else if IsIstio(key.kind) && !istioServed {
        r := Err(NoMatch);
      } else if key in objects {
        r := Ok(objects[key]);
      } else {
        r := Err(NotFound);
      }
    }

    /** Create or Update of one object. */
    method Put(key: Key, o: Object) returns (err: Option<Error>)
      requires Valid() && Serves(Snapshot().store, key.kind)
      modifies this`faults, this`objects
      ensures Valid()
      ensures !MissingNamespace(old(Snapshot()).store, key) ==>
        var called :=
            CallWrite(old(Snapshot()).store, old(Snapshot()).store.(objects := old(objects)[key := o]), old(faults));
        Snapshot() == old(Snapshot()).(store := called.store, faults := called.faults) && err == called.err
      ensures MissingNamespace(old(Snapshot()).store, key) ==>
        Snapshot() == Tick(old(Snapshot())) && err == Some(if Head(old(faults)) == Healthy then NotFound else Transient)
    {
      var f := NextFault();
      if key !in objects && key.namespace != "" && NamespaceKey(key.namespace) !in objects {
        err := Some(if f == Healthy then NotFound else Transient);
      } else {
        if f != Rejected {
          objects := objects[key := o];
        }
        err := if f == Healthy then None else Some(Transient);
      }
    }

    /** Delete with NotFound and NoMatch ignored, as every caller in the operator does. */
    method DeleteIfPresent(key: Key) returns (err: Option<Error>)
      requires Valid()
      modifies this`faults, this`objects
      ensures Valid() && Ran(Snapshot(), err) == Perform(old(Snapshot()), Remove(key))
    {
      var f := NextFault();
      if f != Rejected && key in objects {
        objects := objects - {key};
      }
      err := if f == Healthy then None else Some(Transient);
      assert key !in old(objects) ==> old(objects) - {key} == old(objects);
    }

    /** Get; create if absent; otherwise mutate and write only when something changed. */
    method CreateOrUpdate(key: Key, m: Mutation) returns (err: Option<Error>)
      requires Valid()
      modifies this`faults, this`objects
      ensures Valid() && Ran(Snapshot(), err) == Perform(old(Snapshot()), Ensure(key, m))
    {
      var got := Get(key);
      if got.Err? && got.error != NotFound {
        return Some(got.error);
      }
      var existing := if got.Ok? then Some(got.value) else None;
      var desired := Mutate(m, key, existing);
      if desired.Err? {
        return Some(desired.error);
      }
      if existing == Some(desired.value) {
        return None;
      }
      err := Put(key, desired.value);
    }

    method GetWorkspace(name: string) returns (r: Result<Workspace, Error>)
      modifies this`faults
      ensures Snapshot() == Tick(old(Snapshot()))
      ensures r == if Head(old(faults)) != Healthy then Err(Transient)
                   else if name in workspaces then Ok(workspaces[name]) else Err(NotFound)
    {
      var f := NextFault();
      r := if f != Healthy then Err(Transient)
           else if name in workspaces then Ok(workspaces[name]) else Err(NotFound);
    }

    method UpdateWorkspaceStatus(name: string, base: WorkspaceStatus, desired: WorkspaceStatus)
      returns (err: Option<Error>)
      modifies this`faults, this`workspaces
      ensures Ran(Snapshot(), err) == PatchWorkspaceStatus(old(Snapshot()), name, base, desired)
    {
      var f := NextFault();
      if name !in workspaces {
        return Some(if f == Healthy then NotFound else Transient);
      }
      if f != Rejected {
        var w := workspaces[name];
        workspaces := workspaces[name := w.(status := MergeStatus(w.status, base, desired))];
      }
      err := if f == Healthy then None else Some(Transient);
    }

    method GetModule(name: string) returns (r: Result<Module, Error>)
      modifies this`faults
      ensures Snapshot() == Tick(old(Snapshot()))
      ensures r == if Head(old(faults)) != Healthy then Err(Transient)
                   else if name in modules then Ok(modules[name]) else Err(NotFound)
    {
      var f := NextFault();
      r := if f != Healthy then Err(Transient)
           else if name in modules then Ok(modules[name]) else Err(NotFound);
    }

    method FetchTemplate(name: string) returns (r: Result<ModuleTemplate, Error>)
      modifies this`faults
      ensures Snapshot() == Tick(old(Snapshot()))
      ensures r == GetTemplate(old(Snapshot()), name)
    {
      var f := NextFault();
      r := if f != Healthy then Err(Transient)
           else if name in templates then Ok(templates[name]) else Err(NotFound);
    }

    method UpdateModuleStatus(name: string, base: ModuleStatus, desired: ModuleStatus) returns (err: Option<Error>)
      modifies this`faults, this`modules
      ensures Ran(Snapshot(), err) == PatchModuleStatus(old(Snapshot()), name, base, desired)
    {
      var f := NextFault();
      if name !in modules {
        return Some(if f == Healthy then NotFound else Transient);
      }
      if f != Rejected {
        var m := modules[name];
        modules := modules[name := m.(status := MergeModuleStatus(m.status, base, desired))];
      }
      err := if f == Healthy then None else Some(Transient);
    }

    method UpdateFinalizers(name: string, finalizers: set<string>) returns (err: Option<Error>)
      modifies this`faults, this`modules
      ensures Ran(Snapshot(), err) == PatchFinalizers(old(Snapshot()), name, finalizers)
    {
      var f := NextFault();
      if name !in modules {
        return Some(if f == Healthy then NotFound else Transient);
      }
      var m := modules[name];
      if m.deleting && !(finalizers <= m.finalizers) {
        return Some(if f == Healthy then Forbidden else Transient);
      }
      if f != Rejected {
        if m.deleting && finalizers == {} {
          modules := modules - {name};
        } else {
          modules := modules[name := m.(finalizers := finalizers)];
        }
      }
      err := if f == Healthy then None else Some(Transient);
    }
  }
}
