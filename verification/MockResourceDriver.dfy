/**
The in-memory driver over the heap. Config and output maps are passed by reference; the
driver clones what it stores and what it hands out, so its store shares nothing with callers.
*/
module MockResourceDriver {
  import opened Wrappers
  import opened Config
  import opened MockStore

  /** A map passed by reference. */
  class GoMap {
    var m: Props

    constructor (m: Props)
      ensures this.m == m
    {
      this.m := m;
    }
  }

  /** What ranging over a map sees: nothing, if it is nil. */
  ghost function Entries(m: GoMap?): Props
    reads m
  {
    if m == null then map[] else m.m
  }

  class ResourceOutput {
    var name: string
    var kind: string
    var providerID: string
    var outputs: GoMap?
    var status: string

    constructor (name: string, kind: string, providerID: string, outputs: GoMap?, status: string)
      ensures this.name == name && this.kind == kind && this.providerID == providerID
      ensures this.outputs == outputs && this.status == status
    {
      this.name, this.kind, this.providerID := name, kind, providerID;
      this.outputs, this.status := outputs, status;
    }

    ghost function View(): Resource
      reads this, outputs
    {
      Resource(name, kind, providerID, Entries(outputs), status)
    }
  }

  datatype ResourceSpec = ResourceSpec(name: string, kind: string, config: GoMap?)

  ghost function SpecView(spec: ResourceSpec): Spec
    reads spec.config
  {
    Spec(spec.name, spec.kind, Entries(spec.config))
  }

  method CloneMap(m: GoMap?) returns (clone: GoMap?)
    ensures clone == null <==> m == null
    ensures clone != null ==> fresh(clone) && clone.m == m.m
  {
    if m == null { return null; }
    clone := new GoMap(m.m);
  }

  method CloneResourceOutput(out: ResourceOutput) returns (clone: ResourceOutput)
    ensures fresh(clone) && clone.View() == out.View()
    ensures clone.outputs == null <==> out.outputs == null
    ensures clone.outputs != null ==> fresh(clone.outputs)
  {
    var outputs := CloneMap(out.outputs);
    clone := new ResourceOutput(out.name, out.kind, out.providerID, outputs, out.status);
  }

  datatype FieldChange = FieldChange(path: string, was: Option<Value>, wanted: Value)

  class Driver {
    const kind: string
    var resources: map<string, ResourceOutput>

    /** What is stored, and the objects it is stored in. */
    ghost var Contents: Store
    ghost var Repr: set<object>

    ghost predicate Valid()
      reads this, Repr
    {
      && resources.Keys == Contents.Keys
      && forall n | n in resources ::
           && resources[n] in Repr && resources[n].outputs != null && resources[n].outputs in Repr
           && resources[n].View() == Contents[n]
    }

    constructor (kind: string)
      ensures this.kind == kind && Valid() && Contents == map[] && Repr == {}
    {
      this.kind := kind;
      this.resources := map[];
      this.Contents := map[];
      this.Repr := {};
    }

    method OutputFromSpec(spec: ResourceSpec, status: string) returns (out: ResourceOutput)
      ensures fresh(out) && out.outputs != null && fresh(out.outputs)
      ensures status == "running" ==> out.View() == FromSpec(kind, SpecView(spec))
    {
      var outputs := CloneMap(spec.config);
      if outputs == null { outputs := new GoMap(map[]); }
      outputs.m := outputs.m["status" := Str(status)];
      if "replicas" !in outputs.m { outputs.m := outputs.m["replicas" := Int(1)]; }
      outputs.m := outputs.m["desired_count" := outputs.m["replicas"]];
      outputs.m := outputs.m["running_count" := outputs.m["replicas"]];
      assert status == "running" ==> outputs.m == Completed(Entries(spec.config));
      out := new ResourceOutput(spec.name, kind, "mock-aws:" + kind + ":" + spec.name, outputs, status);
    }

    /** Nothing of `out` belongs to the store. */
    ghost predicate Apart(out: ResourceOutput)
      reads this, out
    {
      out !in Repr && out.outputs != null && out.outputs !in Repr
    }

    /** Files a clone of `out` under `name`. */
    method Keep(name: string, out: ResourceOutput)
      requires Valid() && out.outputs != null
      modifies this
      ensures Valid() && fresh(Repr - old(Repr))
      ensures Contents == old(Contents)[name := old(out.View())]
    {
      var clone := CloneResourceOutput(out);
      resources := resources[name := clone];
      Repr := Repr + {clone, clone.outputs};
      Contents := Contents[name := clone.View()];
    }

    method Create(spec: ResourceSpec) returns (out: ResourceOutput)
      requires Valid()
      modifies this
      ensures Valid() && fresh(Repr - old(Repr))
      ensures Contents == Created(kind, old(Contents), old(SpecView(spec)))
      ensures fresh(out) && Apart(out) && fresh(out.outputs)
      ensures out.View() == Contents[spec.name]
    {
      out := OutputFromSpec(spec, "running");
      Keep(spec.name, out);
    }

    method Read(name: string) returns (out: ResourceOutput?)
      requires Valid()
      ensures out == null <==> name !in Contents
      ensures out != null ==> out.View() == Contents[name]
      ensures out != null ==> fresh(out) && Apart(out) && fresh(out.outputs)
    {
      if name !in resources { return null; }
      out := CloneResourceOutput(resources[name]);
    }

    method Update(name: string, spec: ResourceSpec) returns (out: ResourceOutput?)
      requires Valid()
      modifies this
      ensures Valid() && fresh(Repr - old(Repr))
      ensures Contents == Updated(kind, old(Contents), name, old(SpecView(spec))).0
      ensures out == null <==> name !in old(Contents)
      ensures out != null ==> out.View() == Contents[name]
      ensures out != null ==> fresh(out) && Apart(out) && fresh(out.outputs)
    {
      if name !in resources { return null; }
      out := OutputFromSpec(spec.(name := name), "running");
      Keep(name, out);
    }

    method Delete(name: string)
      requires Valid()
      modifies this
      ensures Valid() && Repr == old(Repr)
      ensures Contents == old(Contents) - {name}
    {
      resources := resources - {name};
      Contents := Contents - {name};
    }

    method Scale(name: string, replicas: int) returns (out: ResourceOutput?)
      requires Valid()
      modifies this
      ensures Valid() && fresh(Repr - old(Repr))
      ensures Contents == Scaled(old(Contents), name, replicas).0
      ensures out == null <==> name !in old(Contents)
      ensures out != null ==> out.View() == Contents[name]
      ensures out != null ==> fresh(out) && Apart(out) && fresh(out.outputs)
    {
      if name !in resources { return null; }
      var next := CloneResourceOutput(resources[name]);
      next.outputs.m := next.outputs.m["replicas" := Int(replicas)];
      next.outputs.m := next.outputs.m["desired_count" := Int(replicas)];
      next.outputs.m := next.outputs.m["running_count" := Int(replicas)];
      assert next.View() == Scaled(old(Contents), name, replicas).1.value;
      Keep(name, next);
      out := CloneResourceOutput(next);
    }

    /** One change for each config key whose value the outputs lack or give differently. */
    method Diff(spec: ResourceSpec, current: ResourceOutput?) returns (needsUpdate: bool, changes: seq<FieldChange>)
      ensures current == null ==> needsUpdate && changes == []
      ensures current != null ==> (needsUpdate <==> changes != [])
      ensures current != null ==> Paths(changes) == Differences(Entries(spec.config), Entries(current.outputs))
      ensures current != null ==> Reported(changes, Entries(spec.config), Entries(current.outputs))
      ensures |changes| == |Paths(changes)|
    {
      if current == null { return true, []; }
      var config := if spec.config == null then map[] else spec.config.m;
      var outputs := if current.outputs == null then map[] else current.outputs.m;
      changes := FieldChanges(config, outputs);
      needsUpdate := changes != [];
    }
  }

  function Paths(changes: seq<FieldChange>): set<string> { set c | c in changes :: c.path }

  predicate Reported(changes: seq<FieldChange>, config: Props, outputs: Props) {
    forall c | c in changes :: c.path in config && c.wanted == config[c.path] && c.was == Lookup(outputs, c.path)
  }

  lemma PathsGrow(changes: seq<FieldChange>, change: FieldChange)
    ensures Paths(changes + [change]) == Paths(changes) + {change.path}
  {
    assert forall c :: c in changes + [change] <==> c in changes || c == change;
  }

  /** Ranges over the config in any order. */
  method FieldChanges(config: Props, outputs: Props) returns (changes: seq<FieldChange>)
    ensures Paths(changes) == Differences(config, outputs)
    ensures Reported(changes, config, outputs) && |changes| == |Paths(changes)|
  {
    changes := [];
    var rest := config.Keys;
    while rest != {}
      invariant rest <= config.Keys
      invariant forall k :: k in Paths(changes) <==> k in Differences(config, outputs) && k !in rest
      invariant |changes| == |Paths(changes)|
      invariant Reported(changes, config, outputs)
      decreases rest
    {
      var key :| key in rest;
      if key !in outputs || outputs[key] != config[key] {
        var change := FieldChange(key, Lookup(outputs, key), config[key]);
        PathsGrow(changes, change);
        changes := changes + [change];
      }
      rest := rest - {key};
    }
  }

  /** A caller may do what it likes to an output it was handed or a config it passed: the
      store has no part in them. */
  method Scribble(d: Driver, out: ResourceOutput, junk: Props)
    requires d.Valid() && d.Apart(out)
    modifies out, out.outputs
    ensures d.Valid()
  {
    out.outputs.m := junk;
    out.status := "";
  }

  method ScribbleConfig(d: Driver, config: GoMap, junk: Props)
    requires d.Valid() && config !in d.Repr
    modifies config
    ensures d.Valid()
  {
    config.m := junk;
  }

  method ReadAndScribble(d: Driver, name: string, junk: Props)
    requires d.Valid()
    ensures d.Valid()
  {
    var out := d.Read(name);
    if out != null { Scribble(d, out, junk); }
  }

  method CreateAndScribble(d: Driver, spec: ResourceSpec, junk: Props)
    requires d.Valid()
    modifies d
    ensures d.Valid() && fresh(d.Repr - old(d.Repr))
    ensures d.Contents == Created(d.kind, old(d.Contents), old(SpecView(spec)))
  {
    var out := d.Create(spec);
    Scribble(d, out, junk);
  }

  /** Whatever callers write to a config they passed or to outputs they were handed, a later
      read still finds what was stored. */
  method TamperAndRead(d: Driver, spec: ResourceSpec, junk: Props) returns (again: ResourceOutput?)
    requires d.Valid() && spec.config != null && spec.config !in d.Repr
    modifies d, spec.config
    ensures d.Valid() && d.Contents == Created(d.kind, old(d.Contents), old(SpecView(spec)))
    ensures again != null && again.View() == FromSpec(d.kind, old(SpecView(spec)))
  {
    CreateAndScribble(d, spec, junk);
    ScribbleConfig(d, spec.config, junk);
    ReadAndScribble(d, spec.name, junk);
    again := d.Read(spec.name);
  }
}
