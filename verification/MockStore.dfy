/** The in-memory provider's resources as values: what each driver operation leaves stored. */
module MockStore {
  import opened Wrappers
  import opened Config

  datatype Spec = Spec(name: string, kind: string, config: Props)

  datatype Resource = Resource(name: string, kind: string, providerID: string, outputs: Props, status: string)

  type Store = map<string, Resource>

  /** The replicas a config asks for, in whatever type it gives them. */
  function Replicas(config: Props): Value {
    if "replicas" in config then config["replicas"] else Int(1)
  }

  function WithCounts(outputs: Props, replicas: Value): Props {
    outputs["replicas" := replicas]["desired_count" := replicas]["running_count" := replicas]
  }

  function Completed(config: Props): Props {
    WithCounts(config["status" := Str("running")], Replicas(config["status" := Str("running")]))
  }

  function FromSpec(kind: string, spec: Spec): Resource {
    Resource(spec.name, kind, "mock-aws:" + kind + ":" + spec.name, Completed(spec.config), "running")
  }

  function Created(kind: string, s: Store, spec: Spec): Store { s[spec.name := FromSpec(kind, spec)] }

  function Updated(kind: string, s: Store, name: string, spec: Spec): (Store, Option<Resource>) {
    if name !in s then (s, None)
    else
      var r := FromSpec(kind, spec.(name := name));
      (s[name := r], Some(r))
  }

  function Scaled(s: Store, name: string, replicas: int): (Store, Option<Resource>) {
    if name !in s then (s, None)
    else
      var r := s[name].(outputs := WithCounts(s[name].outputs, Int(replicas)));
      (s[name := r], Some(r))
  }

  /** The config keys whose value the outputs lack or give differently. */
  function Differences(config: Props, outputs: Props): set<string> {
    set k | k in config && Lookup(outputs, k) != Some(config[k])
  }

  /* ----- runs ----- */

  datatype Op =
    | OpCreate(spec: Spec)
    | OpUpdate(name: string, spec: Spec)
    | OpScale(name: string, replicas: int)
    | OpDelete(name: string)

  function Apply(kind: string, s: Store, op: Op): Store {
    match op
    case OpCreate(spec) => Created(kind, s, spec)
    case OpUpdate(name, spec) => Updated(kind, s, name, spec).0
    case OpScale(name, replicas) => Scaled(s, name, replicas).0
    case OpDelete(name) => s - {name}
  }

  function Run(kind: string, s: Store, ops: seq<Op>): Store {
    if ops == [] then s else Apply(kind, Run(kind, s, ops[..|ops| - 1]), ops[|ops| - 1])
  }

  /** A stored resource is filed under its name, runs, and shows one replica count three times. */
  predicate WellKept(kind: string, name: string, r: Resource) {
    && r.name == name && r.kind == kind && r.status == "running"
    && r.providerID == "mock-aws:" + kind + ":" + name
    && Lookup(r.outputs, "status") == Some(Str("running"))
    && "replicas" in r.outputs
    && Lookup(r.outputs, "desired_count") == Some(r.outputs["replicas"])
    && Lookup(r.outputs, "running_count") == Some(r.outputs["replicas"])
  }

  predicate AllWellKept(kind: string, s: Store) { forall n | n in s :: WellKept(kind, n, s[n]) }

  lemma ApplyWellKept(kind: string, s: Store, op: Op)
    requires AllWellKept(kind, s)
    ensures AllWellKept(kind, Apply(kind, s, op))
  {
  }

  /** Through any run of operations every stored resource stays well kept. */
  lemma {:induction false} RunWellKept(kind: string, ops: seq<Op>)
    ensures AllWellKept(kind, Run(kind, map[], ops))
  {
    if ops != [] {
      RunWellKept(kind, ops[..|ops| - 1]);
      ApplyWellKept(kind, Run(kind, map[], ops[..|ops| - 1]), ops[|ops| - 1]);
    }
  }

  /** The last operation that touched a name decides what is stored under it. */
  function Touches(op: Op): string {
    match op
    case OpCreate(spec) => spec.name
    case OpUpdate(name, _) => name
    case OpScale(name, _) => name
    case OpDelete(name) => name
  }

  function About(name: string, ops: seq<Op>): seq<Op> {
    if ops == [] then []
    else About(name, ops[..|ops| - 1]) + if Touches(ops[|ops| - 1]) == name then [ops[|ops| - 1]] else []
  }

  /** Resources do not interfere: a name holds what the operations on that name alone leave. */
  lemma {:induction false} NamesAreIndependent(kind: string, name: string, ops: seq<Op>)
    ensures Lookup(Run(kind, map[], ops), name) == Lookup(Run(kind, map[], About(name, ops)), name)
  {
    if ops != [] {
      var (init, op) := (ops[..|ops| - 1], ops[|ops| - 1]);
      NamesAreIndependent(kind, name, init);
      if Touches(op) == name {
        RunLast(kind, About(name, init), op);
        SameAtName(kind, Run(kind, map[], init), Run(kind, map[], About(name, init)), op);
      } else {
        assert About(name, ops) == About(name, init);
        OtherUntouched(kind, Run(kind, map[], init), op, name);
      }
    }
  }

  lemma RunLast(kind: string, ops: seq<Op>, op: Op)
    ensures Run(kind, map[], ops + [op]) == Apply(kind, Run(kind, map[], ops), op)
  {
    assert (ops + [op])[..|ops|] == ops;
  }

  lemma OtherUntouched(kind: string, s: Store, op: Op, name: string)
    requires Touches(op) != name
    ensures Lookup(Apply(kind, s, op), name) == Lookup(s, name)
  {
  }

  lemma SameAtName(kind: string, s: Store, t: Store, op: Op)
    requires Lookup(s, Touches(op)) == Lookup(t, Touches(op))
    ensures Lookup(Apply(kind, s, op), Touches(op)) == Lookup(Apply(kind, t, op), Touches(op))
  {
  }

  /** A config the store can satisfy: the computed keys are absent or already right. */
  predicate Settled(config: Props) {
    && ("status" in config ==> config["status"] == Str("running"))
    && ("desired_count" in config ==> config["desired_count"] == Replicas(config))
    && ("running_count" in config ==> config["running_count"] == Replicas(config))
  }

  /** A created or updated resource shows no difference from its config exactly then. */
  lemma CompletedAgreesIff(config: Props)
    ensures Differences(config, Completed(config)) == {} <==> Settled(config)
  {
    var out := Completed(config);
    assert forall k | k in config && k !in {"status", "desired_count", "running_count"} :: Lookup(out, k) == Some(config[k]);
    if !Settled(config) {
      var k :| k in {"status", "desired_count", "running_count"} && k in config && Lookup(out, k) != Some(config[k]);
      assert k in Differences(config, out);
    }
  }

  /** What a created or updated resource outputs: the config, but for a running status and
      the three counts, which are the replicas the config asks for or one. */
  lemma CompletedMeans(config: Props, key: string)
    ensures Lookup(Completed(config), key) ==
              if key == "status" then Some(Str("running"))
              else if key == "replicas" || key == "desired_count" || key == "running_count" then
                Some(if "replicas" in config then config["replicas"] else Int(1))
              else Lookup(config, key)
  {
  }

  /** Scaling an existing resource sets its three counts to the number given and keeps its
      other outputs and fields, and every other resource. */
  lemma ScaledMeans(s: Store, name: string, replicas: int, key: string, other: string)
    ensures var (s', r) := Scaled(s, name, replicas);
            && (r.Some? <==> name in s) && Lookup(s', name) == r
            && (other != name ==> Lookup(s', other) == Lookup(s, other))
            && (name in s ==>
                  && r.value.(outputs := map[]) == s[name].(outputs := map[])
                  && Lookup(r.value.outputs, key) ==
                       if key == "replicas" || key == "desired_count" || key == "running_count" then Some(Int(replicas))
                       else Lookup(s[name].outputs, key))
  {
  }
}
