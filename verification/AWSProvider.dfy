/** The provider in mock mode: its table of drivers, and planning over references. */
module AWSProvider {
  import opened Wrappers
  import opened Config
  import opened MockStore
  import opened MockResourceDriver
  import opened Planner

  /** The resource types the provider declares. */
  const CAPABILITIES: seq<string> := [
    "infra.container_service", "infra.k8s_cluster", "infra.database", "infra.cache", "infra.vpc",
    "infra.load_balancer", "infra.dns", "infra.registry", "infra.api_gateway", "infra.firewall",
    "infra.iam_role", "infra.storage", "infra.certificate", "infra.autoscaling_group"]

  datatype ResourceState = ResourceState(name: string, kind: string, providerID: string, outputs: GoMap?)

  datatype PlanAction = PlanAction(
    action: string, resource: ResourceSpec, current: Option<ResourceState>, changes: seq<FieldChange>)

  ghost function StateView(s: ResourceState): State
    reads s.outputs
  {
    State(s.name, s.kind, s.providerID, Entries(s.outputs))
  }

  ghost function StateViews(states: seq<ResourceState>): seq<State>
    reads set s | s in states :: s.outputs
  {
    if states == [] then [] else StateViews(states[..|states| - 1]) + [StateView(states[|states| - 1])]
  }

  ghost function SpecViews(specs: seq<ResourceSpec>): seq<Spec>
    reads set s | s in specs :: s.config
  {
    if specs == [] then [] else [SpecView(specs[0])] + SpecViews(specs[1..])
  }

  ghost function CurrentView(s: Option<ResourceState>): Option<State>
    reads if s.Some? then {s.value.outputs} else {}
  {
    if s.Some? then Some(StateView(s.value)) else None
  }

  /** The objects an action refers to. */
  ghost function Refers(a: PlanAction): set<GoMap?> {
    {a.resource.config} + if a.current.Some? then {a.current.value.outputs} else {}
  }

  ghost function ActionView(a: PlanAction): Action
    reads Refers(a)
  {
    Action(a.action, SpecView(a.resource), CurrentView(a.current), Paths(a.changes))
  }

  /** The plan's actions are those, in that order. */
  ghost predicate Lists(plan: seq<PlanAction>, actions: seq<Action>)
    reads set a, o | a in plan && o in Refers(a) :: o
  {
    |plan| == |actions| && forall k | 0 <= k < |plan| :: ActionView(plan[k]) == actions[k]
  }

  lemma ListsBoth(xs: seq<PlanAction>, us: seq<Action>, ys: seq<PlanAction>, vs: seq<Action>)
    requires Lists(xs, us) && Lists(ys, vs)
    ensures Lists(xs + ys, us + vs)
  {
  }

  ghost predicate Shows(plan: Option<seq<PlanAction>>, actions: Option<seq<Action>>)
    reads if plan.Some? then set a, o | a in plan.value && o in Refers(a) :: o else {}
  {
    (plan.None? <==> actions.None?) && (plan.Some? ==> Lists(plan.value, actions.value))
  }

  function ByName(states: seq<ResourceState>): map<string, ResourceState> {
    if states == [] then map[]
    else
      var last := states[|states| - 1];
      ByName(states[..|states| - 1])[last.name := last]
  }

  /** `views` are the specs as values. */
  ghost predicate Represents(views: seq<Spec>, specs: seq<ResourceSpec>)
    reads set s | s in specs :: s.config
  {
    |views| == |specs| && forall k | 0 <= k < |specs| :: views[k] == SpecView(specs[k])
  }

  /** `views` is the index as values. */
  ghost predicate Describes(views: Index, index: map<string, ResourceState>)
    reads set n | n in index :: index[n].outputs
  {
    views.Keys == index.Keys && forall n | n in index :: views[n] == StateView(index[n])
  }

  lemma {:induction false} ByNameView(states: seq<ResourceState>)
    ensures Describes(IndexOf(StateViews(states)), ByName(states))
  {
    if states != [] {
      ByNameView(states[..|states| - 1]);
      var views := StateViews(states);
      assert views[..|views| - 1] == StateViews(states[..|states| - 1]);
    }
  }

  lemma {:induction false} SpecViewAt(specs: seq<ResourceSpec>, i: nat)
    requires i < |specs|
    ensures |SpecViews(specs)| == |specs| && SpecViews(specs)[i] == SpecView(specs[i])
  {
    if |specs| > 1 {
      SpecViewAt(specs[1..], if i > 0 then i - 1 else 0);
    }
  }

  class Provider {
    var initialized: bool
    var driverMap: map<string, Driver>

    constructor ()
      ensures !initialized && driverMap == map[]
    {
      initialized, driverMap := false, map[];
    }

    /** The table has a driver of its own type for each declared type, and no other. */
    ghost predicate Registered()
      reads this
    {
      && driverMap.Keys == (set kind | kind in CAPABILITIES)
      && forall kind | kind in driverMap :: driverMap[kind].kind == kind
    }

    /** Forgets every driver, then makes an empty one for each declared type. */
    method RegisterMockDrivers()
      modifies this
      ensures initialized == old(initialized) && Registered()
      ensures forall kind | kind in driverMap ::
                fresh(driverMap[kind]) && driverMap[kind].Valid() && driverMap[kind].Contents == map[] && driverMap[kind].Repr == {}
      ensures forall j, k | j in driverMap && k in driverMap && j != k :: driverMap[j] != driverMap[k]
    {
      driverMap := map[];
      var i := 0;
      while i < |CAPABILITIES|
        invariant 0 <= i <= |CAPABILITIES|
        invariant initialized == old(initialized)
        invariant driverMap.Keys == set kind | kind in CAPABILITIES[..i]
        invariant forall kind | kind in driverMap ::
                    && fresh(driverMap[kind]) && driverMap[kind].kind == kind
                    && driverMap[kind].Valid() && driverMap[kind].Contents == map[] && driverMap[kind].Repr == {}
      {
        var kind := CAPABILITIES[i];
        var driver := new Driver(kind);
        driverMap := driverMap[kind := driver];
        assert CAPABILITIES[..i + 1] == CAPABILITIES[..i] + [kind];
        i := i + 1;
      }
      assert CAPABILITIES[..i] == CAPABILITIES;
    }

    method InitializeMock()
      modifies this
      ensures initialized && Registered()
      ensures forall kind | kind in driverMap ::
                fresh(driverMap[kind]) && driverMap[kind].Valid() && driverMap[kind].Contents == map[] && driverMap[kind].Repr == {}
      ensures forall j, k | j in driverMap && k in driverMap && j != k :: driverMap[j] != driverMap[k]
    {
      RegisterMockDrivers();
      initialized := true;
    }

    /** The driver of a type; with the declared types registered, every declared type has one
        and it makes resources of that type. */
    method ResourceDriver(kind: string) returns (driver: Driver?)
      ensures driver != null ==> kind in driverMap && driver == driverMap[kind]
      ensures driver == null ==> kind !in driverMap
      ensures Registered() ==> (driver != null <==> kind in CAPABILITIES)
      ensures Registered() && driver != null ==> driver.kind == kind
    {
      if kind !in driverMap { return null; }
      return driverMap[kind];
    }

    /** The last state of each name, found by overwriting the ones before. */
    method IndexStates(current: seq<ResourceState>) returns (index: map<string, ResourceState>)
      ensures index == ByName(current) && Describes(old(IndexOf(StateViews(current))), index)
    {
      index := map[];
      var i := 0;
      while i < |current|
        invariant 0 <= i <= |current|
        invariant index == ByName(current[..i])
      {
        index := index[current[i].name := current[i]];
        assert current[..i + 1][..i] == current[..i];
        i := i + 1;
      }
      assert current[..i] == current;
      ByNameView(current);
    }

    /** The actions one spec needs: at most one, or an error when its type has no driver. */
    method PlanSpec(spec: ResourceSpec, index: map<string, ResourceState>, ghost views: Index)
      returns (actions: Option<seq<PlanAction>>)
      requires initialized && Describes(views, index)
      ensures var planned := PlanOne(driverMap.Keys, views, SpecView(spec));
              && (actions.None? <==> planned.None?)
              && (actions.Some? ==> |actions.value| <= 1 && Lists(actions.value, planned.value))
    {
      if spec.name !in index {
        assert Paths([]) == {};
        return Some([PlanAction("create", spec, None, [])]);
      }
      var driver := ResourceDriver(spec.kind);
      if driver == null { return None; }
      var cur := index[spec.name];
      var output := new ResourceOutput(cur.name, cur.kind, cur.providerID, cur.outputs, "");
      var needsUpdate, changes := driver.Diff(spec, output);
      if !needsUpdate {
        assert Paths(changes) == {};
        return Some([]);
      }
      assert changes[0].path in Paths(changes);
      return Some([PlanAction("update", spec, Some(cur), changes)]);
    }

    /** The action loop of Plan; `specs` and `views` are its arguments as values. */
    method PlanEach(desired: seq<ResourceSpec>, index: map<string, ResourceState>, ghost specs: seq<Spec>, ghost views: Index)
      returns (plan: Option<seq<PlanAction>>)
      requires initialized && Describes(views, index) && Represents(specs, desired)
      ensures Shows(plan, PlanAll(driverMap.Keys, views, specs))
    {
      ghost var (kinds, goal) := (driverMap.Keys, PlanAll(driverMap.Keys, views, specs));
      var actions: seq<PlanAction> := [];
      ghost var found: seq<Action> := [];
      var i := 0;
      ThenNothing(goal);
      assert specs[0..] == specs;
      while i < |desired|
        invariant 0 <= i <= |desired| && Describes(views, index)
        invariant Represents(specs, desired)
        invariant Lists(actions, found)
        invariant goal == Then(found, PlanAll(kinds, views, specs[i..]))
      {
        PlanStep(kinds, views, specs, i, found);
        var more := PlanSpec(desired[i], index, views);
        if more.None? { return None; }
        ghost var planned := PlanOne(kinds, views, specs[i]).value;
        ListsBoth(actions, found, more.value, planned);
        found := found + planned;
        actions := actions + more.value;
        i := i + 1;
      }
      assert specs[i..] == [] && found + [] == found;
      return Some(actions);
    }

    method Plan(desired: seq<ResourceSpec>, current: seq<ResourceState>) returns (plan: Option<seq<PlanAction>>)
      ensures Shows(plan, old(Planner.Plan(initialized, driverMap.Keys, SpecViews(desired), StateViews(current))))
    {
      if !initialized { return None; }
      ghost var (views, specs) := (IndexOf(StateViews(current)), SpecViews(desired));
      SpecViewsAt(desired);
      var index := IndexStates(current);
      plan := PlanEach(desired, index, specs, views);
    }
  }

  lemma SpecViewsAt(specs: seq<ResourceSpec>)
    ensures Represents(SpecViews(specs), specs)
  {
    if specs == [] { return; }
    SpecViewAt(specs, 0);
    forall i | 0 <= i < |specs| ensures SpecViews(specs)[i] == SpecView(specs[i]) {
      SpecViewAt(specs, i);
    }
  }
}
