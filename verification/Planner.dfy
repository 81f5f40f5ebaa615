/** Planning against recorded states, and what applying a plan through the drivers leaves. */
module Planner {
  import opened Wrappers
  import opened Config
  import opened MockStore
  import Mapping

  datatype State = State(name: string, kind: string, providerID: string, outputs: Props)

  datatype Action = Action(kind: string, spec: Spec, current: Option<State>, changes: set<string>)

  type Index = map<string, State>

  /** States by name; of states with one name the last one stays. */
  function IndexOf(current: seq<State>): Index {
    if current == [] then map[]
    else
      var last := current[|current| - 1];
      IndexOf(current[..|current| - 1])[last.name := last]
  }

  /** What a spec adds to the plan. The type of a spec that is not listed is not looked at. */
  function PlanOne(kinds: set<string>, index: Index, spec: Spec): Option<seq<Action>> {
    if spec.name !in index then Some([Action("create", spec, None, {})])
    else if spec.kind !in kinds then None
    else
      var changes := Differences(spec.config, index[spec.name].outputs);
      Some(if changes == {} then [] else [Action("update", spec, Some(index[spec.name]), changes)])
  }

  function Then(found: seq<Action>, rest: Option<seq<Action>>): Option<seq<Action>> {
    match rest case None => None case Some(more) => Some(found + more)
  }

  function PlanAll(kinds: set<string>, index: Index, specs: seq<Spec>): Option<seq<Action>> {
    if specs == [] then Some([])
    else
      match PlanOne(kinds, index, specs[0])
      case None => None
      case Some(first) => Then(first, PlanAll(kinds, index, specs[1..]))
  }

  function Plan(initialized: bool, kinds: set<string>, specs: seq<Spec>, current: seq<State>): Option<seq<Action>> {
    if !initialized then None else PlanAll(kinds, IndexOf(current), specs)
  }

  lemma ThenNothing(rest: Option<seq<Action>>)
    ensures Then([], rest) == rest
  {
    if rest.Some? { assert [] + rest.value == rest.value; }
  }

  lemma ThenBoth(xs: seq<Action>, ys: seq<Action>, rest: Option<seq<Action>>)
    ensures Then(xs, Then(ys, rest)) == Then(xs + ys, rest)
  {
    if rest.Some? { assert xs + (ys + rest.value) == xs + ys + rest.value; }
  }

  lemma PlanStep(kinds: set<string>, index: Index, specs: seq<Spec>, i: nat, found: seq<Action>)
    requires i < |specs|
    ensures var first := PlanOne(kinds, index, specs[i]);
            Then(found, PlanAll(kinds, index, specs[i..])) ==
            if first.None? then None else Then(found + first.value, PlanAll(kinds, index, specs[i + 1..]))
  {
    assert specs[i..][1..] == specs[i + 1..];
    if PlanOne(kinds, index, specs[i]).Some? {
      ThenBoth(found, PlanOne(kinds, index, specs[i]).value, PlanAll(kinds, index, specs[i + 1..]));
    }
  }

  lemma {:induction false} IndexNames(current: seq<State>, name: string)
    ensures name in IndexOf(current) <==> exists k :: 0 <= k < |current| && current[k].name == name
  {
    if current != [] {
      IndexNames(current[..|current| - 1], name);
    }
  }

  lemma {:induction false} IndexIsLast(current: seq<State>, k: nat)
    requires k < |current| && forall j :: k < j < |current| ==> current[j].name != current[k].name
    ensures Lookup(IndexOf(current), current[k].name) == Some(current[k])
  {
    if k < |current| - 1 {
      IndexIsLast(current[..|current| - 1], k);
    }
  }

  /** The reason a spec is in the plan: it is listed nowhere, or listed with other outputs. */
  predicate Acted(index: Index, spec: Spec) {
    spec.name in index ==> Differences(spec.config, index[spec.name].outputs) != {}
  }

  /** A plan exists unless a listed spec has a type without a driver, and then holds the
      action of each spec that needs one. */
  lemma {:induction false} PlanMeaning(kinds: set<string>, index: Index, specs: seq<Spec>)
    ensures PlanAll(kinds, index, specs).None? <==> exists spec :: spec in specs && spec.name in index && spec.kind !in kinds
    ensures PlanAll(kinds, index, specs).Some? ==>
              forall a :: a in PlanAll(kinds, index, specs).value <==>
                a.spec in specs && Acted(index, a.spec) && PlanOne(kinds, index, a.spec) == Some([a])
  {
    if specs != [] {
      PlanMeaning(kinds, index, specs[1..]);
      assert specs == [specs[0]] + specs[1..];
      var first := PlanOne(kinds, index, specs[0]);
      if first.None? {
        assert specs[0] in specs && specs[0].name in index && specs[0].kind !in kinds;
      } else if PlanAll(kinds, index, specs[1..]).None? {
        var spec :| spec in specs[1..] && spec.name in index && spec.kind !in kinds;
        assert spec in specs;
      }
    }
  }

  /** Keys whose recorded output is absent or another. */
  predicate Stale(config: Props, outputs: Props, k: string) {
    k in config && (k !in outputs || outputs[k] != config[k])
  }

  predicate Needs(index: Index, spec: Spec) {
    spec.name !in index || exists k | k in spec.config :: Stale(spec.config, index[spec.name].outputs, k)
  }

  /** The specs that need an action, in order. */
  function Needing(index: Index, specs: seq<Spec>): seq<Spec> {
    if specs == [] then []
    else (if Needs(index, specs[0]) then [specs[0]] else []) + Needing(index, specs[1..])
  }

  function SpecOf(a: Action): Spec { a.spec }

  /** What an action says: a create for a name that is not listed, and otherwise an update
      with the state found and the keys that are stale. */
  ghost predicate Truthful(index: Index, a: Action) {
    if a.spec.name in index then
      && a.kind == "update" && a.current == Some(index[a.spec.name]) && a.changes != {}
      && forall k :: k in a.changes <==> Stale(a.spec.config, index[a.spec.name].outputs, k)
    else a.kind == "create" && a.current == None && a.changes == {}
  }

  lemma OnePlanned(kinds: set<string>, index: Index, spec: Spec)
    requires PlanOne(kinds, index, spec).Some?
    ensures var actions := PlanOne(kinds, index, spec).value;
            && Mapping.Map(actions, SpecOf) == (if Needs(index, spec) then [spec] else [])
            && forall a | a in actions :: Truthful(index, a)
  {
    if spec.name in index {
      var outputs := index[spec.name].outputs;
      forall k ensures k in Differences(spec.config, outputs) <==> Stale(spec.config, outputs, k) {}
      if Needs(index, spec) {
        var k :| k in spec.config && Stale(spec.config, outputs, k);
        assert k in Differences(spec.config, outputs);
      }
    }
  }

  lemma SpecsOfBoth(xs: seq<Action>, ys: seq<Action>)
    ensures Mapping.Map(xs + ys, SpecOf) == Mapping.Map(xs, SpecOf) + Mapping.Map(ys, SpecOf)
  {
  }

  /** A plan's actions are for the specs that need one, in their order, and each is a
      truthful create or update. There is never a delete. */
  lemma {:induction false} PlannedActions(kinds: set<string>, index: Index, specs: seq<Spec>)
    ensures var planned := PlanAll(kinds, index, specs);
            planned.Some? ==>
              && Mapping.Map(planned.value, SpecOf) == Needing(index, specs)
              && forall a | a in planned.value :: Truthful(index, a)
  {
    if specs != [] && PlanAll(kinds, index, specs).Some? {
      OnePlanned(kinds, index, specs[0]);
      PlannedActions(kinds, index, specs[1..]);
      SpecsOfBoth(PlanOne(kinds, index, specs[0]).value, PlanAll(kinds, index, specs[1..]).value);
    }
  }

  lemma NothingPlannedIff(kinds: set<string>, index: Index, specs: seq<Spec>)
    ensures PlanAll(kinds, index, specs) == Some([]) <==>
              forall spec | spec in specs :: spec.name in index && spec.kind in kinds && !Acted(index, spec)
  {
    PlanMeaning(kinds, index, specs);
    var plan := PlanAll(kinds, index, specs);
    if plan.Some? {
      forall spec | spec in specs && Acted(index, spec) ensures plan.value != [] {
        assert PlanOne(kinds, index, spec).Some?;
        assert PlanOne(kinds, index, spec).value[0] in plan.value;
      }
      if plan.value != [] {
        assert plan.value[0] in plan.value;
      }
    }
  }

  /* ----- applying a plan ----- */

  /** The drivers' stores by type, and the states recorded so far. */
  datatype World = World(stores: map<string, Store>, states: seq<State>)

  function StateOf(r: Resource): State { State(r.name, r.kind, r.providerID, r.outputs) }

  /** The driver of the spec's type carries out the action; what it returns is recorded. */
  function ApplyAction(w: World, a: Action): Option<World> {
    var kind := a.spec.kind;
    if kind !in w.stores then None
    else if a.kind == "create" then
      Some(World(w.stores[kind := Created(kind, w.stores[kind], a.spec)], w.states + [StateOf(FromSpec(kind, a.spec))]))
    else if a.kind == "update" then
      match Updated(kind, w.stores[kind], a.spec.name, a.spec)
      case (_, None) => None
      case (store, Some(r)) => Some(World(w.stores[kind := store], w.states + [StateOf(r)]))
    else None
  }

  function ApplyAll(w: World, actions: seq<Action>): Option<World>
    decreases |actions|
  {
    if actions == [] then Some(w)
    else
      match ApplyAction(w, actions[0])
      case None => None
      case Some(w1) => ApplyAll(w1, actions[1..])
  }

  predicate DistinctNames(specs: seq<Spec>) {
    forall i, j | 0 <= i < j < |specs| :: specs[i].name != specs[j].name
  }

  /** What a plan demands of the drivers before it can be applied. */
  predicate Applicable(w: World, index: Index, spec: Spec) {
    Acted(index, spec) ==> spec.kind in w.stores && (spec.name in index ==> spec.name in w.stores[spec.kind])
  }

  /** Every type has a driver, and what is to be updated is in the store its spec names. */
  predicate Matches(w: World, index: Index, specs: seq<Spec>) {
    forall spec | spec in specs :: spec.kind in w.stores && Applicable(w, index, spec)
  }

  /** What a spec's state is once its action, if any, is carried out. */
  function After(index: Index, spec: Spec): State {
    if spec.name in index && !Acted(index, spec) then index[spec.name] else StateOf(FromSpec(spec.kind, spec))
  }

  predicate AgreeOn(index: Index, index': Index, specs: seq<Spec>) {
    forall spec | spec in specs :: Lookup(index, spec.name) == Lookup(index', spec.name)
  }

  lemma ActionApplies(w: World, a: Action)
    requires Ready(w, a)
    ensures ApplyAction(w, a).Some?
    ensures var w1 := ApplyAction(w, a).value;
            && w1.states == w.states + [StateOf(FromSpec(a.spec.kind, a.spec))]
            && w1.stores.Keys == w.stores.Keys
            && (forall kind | kind in w.stores :: w.stores[kind].Keys <= w1.stores[kind].Keys)
  {
    assert a.spec.(name := a.spec.name) == a.spec;
  }

  lemma OneApplies(w: World, index: Index, spec: Spec)
    requires spec.kind in w.stores && Applicable(w, index, spec)
    requires Lookup(index, spec.name) == Lookup(IndexOf(w.states), spec.name)
    ensures var planned := PlanOne(w.stores.Keys, index, spec);
            && planned.Some? && ApplyAll(w, planned.value).Some?
            && var w1 := ApplyAll(w, planned.value).value;
               && IndexOf(w1.states) == IndexOf(w.states)[spec.name := After(index, spec)]
               && w1.stores.Keys == w.stores.Keys
               && (forall kind | kind in w.stores :: w.stores[kind].Keys <= w1.stores[kind].Keys)
  {
    var planned := PlanOne(w.stores.Keys, index, spec).value;
    if planned == [] {
      assert IndexOf(w.states)[spec.name := After(index, spec)] == IndexOf(w.states);
    } else {
      ActionApplies(w, planned[0]);
      assert planned == [planned[0]] && planned[1..] == [];
      assert ApplyAll(w, planned) == ApplyAll(ApplyAction(w, planned[0]).value, []);
      assert (w.states + [After(index, spec)])[..|w.states|] == w.states;
    }
  }

  lemma {:induction false} ApplyAppend(w: World, xs: seq<Action>, ys: seq<Action>)
    requires ApplyAll(w, xs).Some?
    ensures ApplyAll(w, xs + ys) == ApplyAll(ApplyAll(w, xs).value, ys)
    decreases |xs|
  {
    if xs == [] {
      assert xs + ys == ys;
    } else {
      assert (xs + ys)[1..] == xs[1..] + ys;
      ApplyAppend(ApplyAction(w, xs[0]).value, xs[1..], ys);
    }
  }

  predicate Records(index: Index, index': Index, specs: seq<Spec>) {
    forall spec | spec in specs :: Lookup(index', spec.name) == Some(After(index, spec))
  }

  ghost predicate OthersKept(index: Index, index': Index, specs: seq<Spec>) {
    forall x: string :: (forall spec | spec in specs :: spec.name != x) ==> Lookup(index', x) == Lookup(index, x)
  }

  /** `w'` is `w` with the plan for `specs` carried out. */
  ghost predicate Carried(w: World, w': World, index: Index, specs: seq<Spec>) {
    && w'.stores.Keys == w.stores.Keys
    && Records(index, IndexOf(w'.states), specs)
    && OthersKept(IndexOf(w.states), IndexOf(w'.states), specs)
  }

  lemma CarriedBoth(w: World, w1: World, w2: World, index: Index, spec: Spec, rest: seq<Spec>)
    requires forall s | s in rest :: s.name != spec.name
    requires IndexOf(w1.states) == IndexOf(w.states)[spec.name := After(index, spec)] && w1.stores.Keys == w.stores.Keys
    requires Carried(w1, w2, index, rest)
    ensures Carried(w, w2, index, [spec] + rest)
  {
    assert forall s | s in [spec] + rest :: s == spec || s in rest;
    assert Lookup(IndexOf(w2.states), spec.name) == Lookup(IndexOf(w1.states), spec.name);
    forall x: string | forall s | s in [spec] + rest :: s.name != x
      ensures Lookup(IndexOf(w2.states), x) == Lookup(IndexOf(w.states), x)
    {
      assert spec in [spec] + rest;
      assert forall s | s in rest :: s in [spec] + rest;
    }
  }

  lemma {:induction false} PlanApplies(w: World, index: Index, specs: seq<Spec>)
    requires DistinctNames(specs) && Matches(w, index, specs) && AgreeOn(index, IndexOf(w.states), specs)
    ensures var planned := PlanAll(w.stores.Keys, index, specs);
            planned.Some? && ApplyAll(w, planned.value).Some? && Carried(w, ApplyAll(w, planned.value).value, index, specs)
    decreases |specs|
  {
    if specs != [] {
      var (spec, rest) := (specs[0], specs[1..]);
      assert specs == [spec] + rest;
      DistinctTail(specs);
      OneApplies(w, index, spec);
      var planned := PlanOne(w.stores.Keys, index, spec).value;
      var w1 := ApplyAll(w, planned).value;
      StillMatches(w, w1, index, spec, rest);
      PlanApplies(w1, index, rest);
      var more := PlanAll(w.stores.Keys, index, rest).value;
      ApplyAppend(w, planned, more);
      CarriedBoth(w, w1, ApplyAll(w1, more).value, index, spec, rest);
    }
  }

  lemma DistinctTail(specs: seq<Spec>)
    requires DistinctNames(specs) && specs != []
    ensures DistinctNames(specs[1..])
    ensures forall s | s in specs[1..] :: s in specs && s.name != specs[0].name
  {
  }

  lemma StillMatches(w: World, w1: World, index: Index, spec: Spec, rest: seq<Spec>)
    requires forall s | s in rest :: s.name != spec.name
    requires Matches(w, index, rest) && AgreeOn(index, IndexOf(w.states), rest)
    requires IndexOf(w1.states) == IndexOf(w.states)[spec.name := After(index, spec)] && w1.stores.Keys == w.stores.Keys
    requires forall kind | kind in w.stores :: w.stores[kind].Keys <= w1.stores[kind].Keys
    ensures Matches(w1, index, rest) && AgreeOn(index, IndexOf(w1.states), rest)
  {
  }

  predicate ActedAreSettled(index: Index, specs: seq<Spec>) {
    forall spec | spec in specs && Acted(index, spec) :: Settled(spec.config)
  }

  lemma QuietIff(kinds: set<string>, index: Index, index': Index, specs: seq<Spec>)
    requires Records(index, index', specs) && forall spec | spec in specs :: spec.kind in kinds
    ensures PlanAll(kinds, index', specs) == Some([]) <==> ActedAreSettled(index, specs)
  {
    NothingPlannedIff(kinds, index', specs);
    forall spec | spec in specs ensures Acted(index', spec) <==> Acted(index, spec) && !Settled(spec.config) {
      AfterActed(index, index', spec);
    }
  }

  /** What could be planned and applied matches. */
  lemma AppliedMatches(w: World, specs: seq<Spec>)
    requires DistinctNames(specs)
    ensures var planned := Plan(true, w.stores.Keys, specs, w.states);
            planned.Some? && ApplyAll(w, planned.value).Some? ==> Matches(w, IndexOf(w.states), specs)
  {
    PlanAppliesIff(w, specs);
    PlanMeaning(w.stores.Keys, IndexOf(w.states), specs);
  }

  /** Planning again after a plan was applied finds nothing to do exactly when every config
      that was acted on is one the store can satisfy. */
  lemma ReplanIsEmptyIff(w: World, specs: seq<Spec>)
    requires DistinctNames(specs)
    ensures var planned := Plan(true, w.stores.Keys, specs, w.states);
            planned.Some? && ApplyAll(w, planned.value).Some? ==>
              var w' := ApplyAll(w, planned.value).value;
              (Plan(true, w'.stores.Keys, specs, w'.states) == Some([]) <==>
               forall a | a in planned.value :: Settled(a.spec.config))
  {
    var index := IndexOf(w.states);
    var planned := PlanAll(w.stores.Keys, index, specs);
    AppliedMatches(w, specs);
    if planned.Some? && ApplyAll(w, planned.value).Some? {
      PlanApplies(w, index, specs);
      QuietIff(w.stores.Keys, index, IndexOf(ApplyAll(w, planned.value).value.states), specs);
      PlannedAreSettledIff(w.stores.Keys, index, specs);
    }
  }

  lemma PlannedAreSettledIff(kinds: set<string>, index: Index, specs: seq<Spec>)
    requires PlanAll(kinds, index, specs).Some?
    ensures (forall a | a in PlanAll(kinds, index, specs).value :: Settled(a.spec.config)) <==> ActedAreSettled(index, specs)
  {
    PlanMeaning(kinds, index, specs);
    PlannedSpecs(kinds, index, specs);
  }

  lemma AfterActed(index: Index, index': Index, spec: Spec)
    requires Lookup(index', spec.name) == Some(After(index, spec))
    ensures Acted(index', spec) <==> Acted(index, spec) && !Settled(spec.config)
  {
    CompletedAgreesIff(spec.config);
  }

  lemma PlannedSpecs(kinds: set<string>, index: Index, specs: seq<Spec>)
    ensures PlanAll(kinds, index, specs).Some? ==>
              forall spec | spec in specs ::
                Acted(index, spec) <==> exists a :: a in PlanAll(kinds, index, specs).value && a.spec == spec
  {
    PlanMeaning(kinds, index, specs);
    if PlanAll(kinds, index, specs).Some? {
      forall spec | spec in specs && Acted(index, spec)
        ensures exists a :: a in PlanAll(kinds, index, specs).value && a.spec == spec
      {
        var a := PlanOne(kinds, index, spec).value[0];
        assert a in PlanAll(kinds, index, specs).value;
      }
    }
  }

  predicate DistinctActions(actions: seq<Action>) {
    forall i, j | 0 <= i < j < |actions| :: actions[i].spec.name != actions[j].spec.name
  }

  /** The driver an action needs is there, and what it is to update is in that driver's store. */
  predicate Ready(w: World, a: Action) {
    a.spec.kind in w.stores && (a.kind == "create" || (a.kind == "update" && a.spec.name in w.stores[a.spec.kind]))
  }

  lemma ActionLeavesOthersReady(w: World, a: Action, b: Action)
    requires Ready(w, a) && a.spec.name != b.spec.name
    ensures ApplyAction(w, a).Some? && (Ready(ApplyAction(w, a).value, b) <==> Ready(w, b))
  {
  }

  /** A list of actions on distinct names can be applied exactly when each of them could be. */
  lemma {:induction false} ApplySucceedsIff(w: World, actions: seq<Action>)
    requires DistinctActions(actions)
    ensures ApplyAll(w, actions).Some? <==> forall a | a in actions :: Ready(w, a)
    decreases |actions|
  {
    if actions != [] {
      assert actions == [actions[0]] + actions[1..];
      if Ready(w, actions[0]) {
        var w1 := ApplyAction(w, actions[0]).value;
        forall b | b in actions[1..] ensures Ready(w1, b) <==> Ready(w, b) {
          ActionLeavesOthersReady(w, actions[0], b);
        }
        ApplySucceedsIff(w1, actions[1..]);
      }
    }
  }

  lemma {:induction false} PlannedNamesDistinct(kinds: set<string>, index: Index, specs: seq<Spec>)
    requires DistinctNames(specs)
    ensures PlanAll(kinds, index, specs).Some? ==> DistinctActions(PlanAll(kinds, index, specs).value)
  {
    if specs != [] && PlanAll(kinds, index, specs).Some? {
      DistinctTail(specs);
      PlannedNamesDistinct(kinds, index, specs[1..]);
      PlanMeaning(kinds, index, specs[1..]);
      var rest := PlanAll(kinds, index, specs[1..]).value;
      forall a | a in rest ensures a.spec.name != specs[0].name {}
    }
  }

  /** A plan for distinct names can be applied exactly when every spec it acts on has a type
      with a driver and, if it is listed, is in that driver's store. Planning checks the first
      for listed specs only, and the second for none. */
  lemma PlanAppliesIff(w: World, specs: seq<Spec>)
    requires DistinctNames(specs)
    ensures var planned := Plan(true, w.stores.Keys, specs, w.states);
            planned.Some? ==>
              (ApplyAll(w, planned.value).Some? <==> forall spec | spec in specs :: Applicable(w, IndexOf(w.states), spec))
  {
    var (kinds, index) := (w.stores.Keys, IndexOf(w.states));
    var planned := PlanAll(kinds, index, specs);
    PlanMeaning(kinds, index, specs);
    PlannedSpecs(kinds, index, specs);
    if planned.Some? {
      PlannedNamesDistinct(kinds, index, specs);
      ApplySucceedsIff(w, planned.value);
      forall a | a in planned.value ensures Ready(w, a) <==> Applicable(w, index, a.spec) {
        assert PlanOne(kinds, index, a.spec) == Some([a]);
      }
    }
  }

  /** A spec whose type no driver has is planned all the same, and then cannot be created. */
  lemma UnknownTypeIsPlanned(w: World, spec: Spec)
    requires spec.name !in IndexOf(w.states) && spec.kind !in w.stores
    ensures var planned := Plan(true, w.stores.Keys, [spec], w.states);
            planned == Some([Action("create", spec, None, {})]) && ApplyAll(w, planned.value).None?
  {
    var index := IndexOf(w.states);
    var create := [Action("create", spec, None, {})];
    assert [spec][1..] == [] && create + [] == create;
    assert PlanAll(w.stores.Keys, index, [spec]) == Then(create, PlanAll(w.stores.Keys, index, []));
    assert ApplyAction(w, create[0]).None?;
  }
}
