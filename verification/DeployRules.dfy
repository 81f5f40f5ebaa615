/** A rule for callers in terms of what their calls returned, and what it guarantees. */
module DeployRules {
  import opened Wrappers
  import opened EcsCloud
  import opened Deploy
  import opened DeploySafety
  import opened DeployReach
  import opened Text

  /** Where a driver starts: no green, no canary, a stable service and group of its own. */
  ghost predicate Fresh(w: World) {
    && Inv(w) && w.serviceName in w.cloud.services
    && w.greenService == "" && w.greenTG == "" && w.canaryService == "" && w.canaryTG == ""
    && w.cloud.groups[w.stableTG] != w.serviceName + "-green-tg"
    && OffCanaries(w)
  }

  /** The listener names no canary's group. */
  ghost predicate OffCanaries(w: World) {
    forall k | 0 <= k < |w.cloud.listener| ::
      w.cloud.listener[k].group in w.cloud.groups
      && !HasSuffix(w.cloud.groups[w.cloud.listener[k].group], "-canary-tg")
  }

  /** The listener names only groups made for this service's green. */
  ghost predicate OnGreen(w: World) {
    forall k | 0 <= k < |w.cloud.listener| ::
      w.cloud.listener[k].group in w.cloud.groups
      && w.cloud.groups[w.cloud.listener[k].group] == w.serviceName + "-green-tg"
  }

  /** What a caller knows from its calls' results: a green was created and not promoted
      since, traffic was switched to it and not moved since, and whether a canary may have
      been given traffic since the last switch or promotion of a canary. */
  datatype Known = Known(green: bool, switched: bool, routed: bool)

  function Note(k: Known, op: Op, ok: bool): Known {
    match op
    case OpUpdate(_) => k
    case OpCreateGreen(_) => k.(green := k.green || ok)
    case OpSwitchTraffic => if ok then k.(switched := k.green, routed := false) else k
    case OpDestroyBlue => if ok then k.(green := false, switched := false) else k
    case OpCreateCanary(_) => k
    case OpRoutePercent(_) => if ok then k.(switched := false, routed := true) else k
    case OpPromoteCanary => k.(switched := false, routed := k.routed && !ok)
    case OpDestroyCanary => k.(switched := false)
  }

  function Succeeded(w: World, ops: seq<Op>, k: nat): bool
    requires k < |ops|
  {
    Apply(Run(w, ops[..k]), ops[k]).1
  }

  function Learned(w: World, ops: seq<Op>): Known {
    if ops == [] then Known(false, false, false)
    else Note(Learned(w, ops[..|ops| - 1]), ops[|ops| - 1], Succeeded(w, ops, |ops| - 1))
  }

  /** DestroyBlue only once traffic is known to be on a green; DestroyCanary only if no canary
      has traffic, or else if the restore it attempts succeeds. */
  ghost predicate Permitted(w: World, k: Known, op: Op) {
    && (op.OpDestroyBlue? ==> k.switched)
    && (op.OpDestroyCanary? ==> !k.routed || (w.stableTG != "" && w.hasListener && RestoreListener(w).1))
  }

  ghost predicate Obeys(w: World, ops: seq<Op>) {
    forall k: nat | k < |ops| :: Permitted(Run(w, ops[..k]), Learned(w, ops[..k]), ops[k])
  }

  /** What is known is so. */
  ghost predicate Sound(w: World, k: Known) {
    && (k.green ==> w.greenService != "")
    && (k.switched ==> k.green && OnGreen(w))
    && (!k.routed ==> OffCanaries(w))
  }

  lemma PermittedIsAllowed(w: World, k: Known, op: Op)
    requires Tidy(w) && Sound(w, k) && Permitted(w, k, op)
    ensures Allowed(w, op)
  {
  }

  lemma SoundGrows(w: World, w': World, k: Known)
    requires Inv(w) && Sound(w, k) && Grew(w, w')
    ensures Sound(w', k)
  {
  }

  lemma CreateGreenSound(w: World, k: Known, image: string)
    requires Tidy(w) && Sound(w, k)
    ensures Sound(CreateGreen(w, image).0, Note(k, OpCreateGreen(image), CreateGreen(w, image).1))
  {
    CreateGreenGrows(w, image);
    SoundGrows(w, CreateGreen(w, image).0, k);
    assert CreateGreen(w, image).1 ==> CreateGreen(w, image).0.greenService == w.serviceName + "-green";
  }

  lemma SwitchSound(w: World, k: Known)
    requires Tidy(w) && Sound(w, k)
    ensures Sound(SwitchTraffic(w).0, Note(k, OpSwitchTraffic, SwitchTraffic(w).1))
  {
    GreenGroupIsNoCanary(w.serviceName);
  }

  lemma RoutePercentSound(w: World, k: Known, percent: int)
    requires Tidy(w) && Sound(w, k)
    ensures Sound(RoutePercent(w, percent).0, Note(k, OpRoutePercent(percent), RoutePercent(w, percent).1))
  {
  }

  lemma DestroyBlueSound(w: World, k: Known)
    requires Tidy(w) && Sound(w, k) && BlueDrained(w)
    ensures Sound(DestroyBlue(w).0, Note(k, OpDestroyBlue, DestroyBlue(w).1))
  {
    DestroyBlueEffect(w);
    var w' := DestroyBlue(w).0;
    forall i | 0 <= i < |w.cloud.listener| && w.cloud.listener[i].group in w.cloud.groups
      ensures w.cloud.listener[i].group in w'.cloud.groups
    {
      assert w.cloud.listener[i].group != w.stableTG;
    }
  }

  /** Only the canary, of all that is noted, can be affected. */
  ghost predicate CanaryAside(w: World, w': World) {
    && w'.cloud.listener == w.cloud.listener && w'.greenService == w.greenService
    && w'.serviceName == w.serviceName && w'.stableTG == w.stableTG
    && forall a | a in w.cloud.groups && a != w.canaryTG :: a in w'.cloud.groups && w'.cloud.groups[a] == w.cloud.groups[a]
  }

  lemma ServiceTeardownAside(w: World)
    ensures CanaryAside(w, DestroyCanaryService(w).0) && DestroyCanaryService(w).0.canaryTG == w.canaryTG
  {
  }

  lemma GroupTeardownAside(w: World)
    ensures CanaryAside(w, DestroyCanaryGroup(w).0)
  {
  }

  lemma TeardownListens(w: World)
    ensures CanaryAside(w, DestroyCanaryResources(w).0)
  {
    ServiceTeardownAside(w);
    GroupTeardownAside(DestroyCanaryService(w).0);
  }

  lemma RestoredIsOff(w: World)
    requires Inv(w)
    ensures RestoreListener(w).1 ==> OffCanaries(RestoreListener(w).0)
    ensures RestoreListener(w).0.cloud.groups == w.cloud.groups
    ensures !RestoreListener(w).1 ==> RestoreListener(w).0.cloud.listener == w.cloud.listener
  {
  }

  lemma TeardownOff(w: World)
    requires Inv(w) && OffCanaries(w)
    ensures OffCanaries(DestroyCanaryResources(w).0)
  {
    TeardownListens(w);
    forall i | 0 <= i < |w.cloud.listener| ensures w.cloud.listener[i].group != w.canaryTG {
      assert w.cloud.listener[i].group in w.cloud.groups;
    }
  }

  lemma DestroyCanarySound(w: World, k: Known)
    requires Tidy(w) && Sound(w, k)
    ensures Sound(DestroyCanary(w).0, Note(k, OpDestroyCanary, DestroyCanary(w).1))
  {
    var w1 := if w.stableTG != "" && w.hasListener then RestoreListener(w).0 else w;
    RestoredIsOff(w);
    RestoreTidy(w);
    TeardownListens(w1);
    if !k.routed {
      assert OffCanaries(w1);
      TeardownOff(w1);
    }
  }

  lemma PromoteCanarySound(w: World, k: Known)
    requires Tidy(w) && Sound(w, k)
    ensures Sound(PromoteCanary(w).0, Note(k, OpPromoteCanary, PromoteCanary(w).1))
  {
    var (w1, image) := CanaryImage(w);
    CanaryImageTidy(w);
    CanaryImageGrows(w);
    SoundGrows(w, w1, k);
    if w.canaryService != "" && image.Some? {
      var (w2, updated) := Update(w1, image.value);
      UpdateTidy(w1, image.value);
      UpdateGrows(w1, image.value);
      SoundGrows(w1, w2, k);
      if updated { PromotionEndSound(w2, k); }
    }
  }

  lemma PromotionEndSound(w: World, k: Known)
    requires Tidy(w) && Sound(w, k)
    ensures var (w3, restored) := RestoreListener(w);
            && (!restored ==> Sound(w3, k.(switched := false)))
            && (restored ==> Sound(DestroyCanaryResources(w3).0, k.(switched := false, routed := false)))
  {
    RestoredIsOff(w);
    RestoreTidy(w);
    var w3 := RestoreListener(w).0;
    TeardownListens(w3);
    if RestoreListener(w).1 { TeardownOff(w3); }
  }

  lemma ApplySound(w: World, k: Known, op: Op)
    requires Tidy(w) && Sound(w, k) && Allowed(w, op)
    ensures Sound(Apply(w, op).0, Note(k, op, Apply(w, op).1))
  {
    match op
    case OpUpdate(image) => UpdateGrows(w, image); SoundGrows(w, Update(w, image).0, k);
    case OpCreateGreen(image) => CreateGreenSound(w, k, image);
    case OpSwitchTraffic => SwitchSound(w, k);
    case OpDestroyBlue => DestroyBlueSound(w, k);
    case OpCreateCanary(image) => CreateCanaryGrows(w, image); SoundGrows(w, CreateCanary(w, image).0, k);
    case OpRoutePercent(percent) => RoutePercentSound(w, k, percent);
    case OpPromoteCanary => PromoteCanarySound(w, k);
    case OpDestroyCanary => DestroyCanarySound(w, k);
  }

  lemma FreshIsTidy(w: World)
    requires Fresh(w)
    ensures Tidy(w) && Sound(w, Known(false, false, false))
  {
  }

  lemma ObeysSplit(w: World, init: seq<Op>, op: Op)
    requires Obeys(w, init + [op])
    ensures Obeys(w, init) && Permitted(Run(w, init), Learned(w, init), op)
  {
    var ops := init + [op];
    assert ops[..|init|] == init && ops[|init|] == op;
    forall k: nat | k < |init| ensures Permitted(Run(w, init[..k]), Learned(w, init[..k]), init[k]) {
      assert ops[..k] == init[..k] && ops[k] == init[k];
      assert Permitted(Run(w, ops[..k]), Learned(w, ops[..k]), ops[k]);
    }
  }

  lemma DisciplinedGrows(w: World, init: seq<Op>, op: Op)
    requires Disciplined(w, init) && Allowed(Run(w, init), op)
    ensures Disciplined(w, init + [op])
  {
    var ops := init + [op];
    forall k | 0 <= k < |ops| ensures Allowed(Run(w, ops[..k]), ops[k]) {
      if k < |init| {
        assert ops[..k] == init[..k] && Allowed(Run(w, init[..k]), init[k]);
      } else {
        assert ops[..k] == init;
      }
    }
  }

  lemma RunSplit(w: World, init: seq<Op>, op: Op)
    ensures Run(w, init + [op]) == Apply(Run(w, init), op).0
    ensures Learned(w, init + [op]) == Note(Learned(w, init), op, Apply(Run(w, init), op).1)
  {
    assert (init + [op])[..|init|] == init;
  }

  /** A caller that goes by its calls' results, the restore inside DestroyCanary included,
      keeps the two rules about the cloud, so its run is safe and tidy, and what it has noted
      is so. */
  lemma {:induction false} ObeyingIsDisciplined(w: World, ops: seq<Op>)
    requires Fresh(w) && Obeys(w, ops)
    ensures Disciplined(w, ops) && Tidy(Run(w, ops)) && Sound(Run(w, ops), Learned(w, ops))
  {
    if ops == [] {
      FreshIsTidy(w);
    } else {
      var (init, op) := (ops[..|ops| - 1], ops[|ops| - 1]);
      assert ops == init + [op];
      ObeysSplit(w, init, op);
      ObeyingIsDisciplined(w, init);
      PermittedIsAllowed(Run(w, init), Learned(w, init), op);
      DisciplinedGrows(w, init, op);
      ApplyTidy(Run(w, init), op);
      ApplySound(Run(w, init), Learned(w, init), op);
      RunSplit(w, init, op);
    }
  }

  lemma ObeyingIsSafe(w: World, ops: seq<Op>)
    requires Fresh(w) && Obeys(w, ops)
    ensures Safe(Run(w, ops)) && ActiveService(Run(w, ops)) in Run(w, ops).cloud.services
  {
    ObeyingIsDisciplined(w, ops);
  }

  /* ----- the rule spelled out ----- */

  /** The i-th call created a green, no later call promoted it. */
  ghost predicate CreatedAt(w: World, ops: seq<Op>, i: nat)
    requires i < |ops|
  {
    && ops[i].OpCreateGreen? && Succeeded(w, ops, i)
    && forall m: nat | i < m < |ops| :: ops[m].OpDestroyBlue? ==> !Succeeded(w, ops, m)
  }

  /** The j-th call switched traffic, and no later call moved it. */
  ghost predicate SwitchedAt(w: World, ops: seq<Op>, j: nat)
    requires j < |ops|
  {
    && ops[j].OpSwitchTraffic? && Succeeded(w, ops, j)
    && forall m: nat | j < m < |ops| :: !MovesTraffic(ops[m], Succeeded(w, ops, m))
  }

  predicate MovesTraffic(op: Op, ok: bool) {
    op.OpPromoteCanary? || op.OpDestroyCanary? || (op.OpRoutePercent? && ok)
  }

  lemma SucceededSplit(w: World, init: seq<Op>, op: Op, m: nat)
    requires m <= |init|
    ensures Succeeded(w, init + [op], m) == if m < |init| then Succeeded(w, init, m) else Apply(Run(w, init), op).1
  {
    assert (init + [op])[..m] == init[..m];
    assert init[..|init|] == init;
  }

  lemma CreatedSplit(w: World, init: seq<Op>, op: Op, i: nat)
    requires i < |init|
    ensures CreatedAt(w, init + [op], i) <==> CreatedAt(w, init, i) && !(op.OpDestroyBlue? && Apply(Run(w, init), op).1)
  {
    var ops := init + [op];
    forall m: nat | m <= |init|
      ensures Succeeded(w, ops, m) == if m < |init| then Succeeded(w, init, m) else Apply(Run(w, init), op).1
    {
      SucceededSplit(w, init, op, m);
    }
    assert forall m: nat | m < |init| :: ops[m] == init[m];
    assert ops[|init|] == op;
  }

  lemma SwitchedSplit(w: World, init: seq<Op>, op: Op, j: nat)
    requires j < |init|
    ensures SwitchedAt(w, init + [op], j) <==> SwitchedAt(w, init, j) && !MovesTraffic(op, Apply(Run(w, init), op).1)
  {
    var ops := init + [op];
    forall m: nat | m <= |init|
      ensures Succeeded(w, ops, m) == if m < |init| then Succeeded(w, init, m) else Apply(Run(w, init), op).1
    {
      SucceededSplit(w, init, op, m);
    }
    assert forall m: nat | m < |init| :: ops[m] == init[m];
    assert ops[|init|] == op;
  }

  lemma LastOne(w: World, init: seq<Op>, op: Op)
    ensures CreatedAt(w, init + [op], |init|) <==> op.OpCreateGreen? && Apply(Run(w, init), op).1
    ensures SwitchedAt(w, init + [op], |init|) <==> op.OpSwitchTraffic? && Apply(Run(w, init), op).1
  {
    SucceededSplit(w, init, op, |init|);
    assert (init + [op])[|init|] == op;
  }

  /** What the last call of a run adds, given its result. */
  lemma LastCall(w: World, ops: seq<Op>) returns (init: seq<Op>, op: Op, ok: bool)
    requires ops != []
    ensures ops == init + [op] && Learned(w, ops) == Note(Learned(w, init), op, ok)
    ensures forall i: nat | i < |init| :: CreatedAt(w, ops, i) <==> CreatedAt(w, init, i) && !(op.OpDestroyBlue? && ok)
    ensures forall j: nat | j < |init| :: SwitchedAt(w, ops, j) <==> SwitchedAt(w, init, j) && !MovesTraffic(op, ok)
    ensures CreatedAt(w, ops, |init|) <==> op.OpCreateGreen? && ok
    ensures SwitchedAt(w, ops, |init|) <==> op.OpSwitchTraffic? && ok
  {
    init, op := ops[..|ops| - 1], ops[|ops| - 1];
    ok := Apply(Run(w, init), op).1;
    assert ops == init + [op];
    RunSplit(w, init, op);
    LastOne(w, init, op);
    forall i: nat | i < |init|
      ensures CreatedAt(w, ops, i) <==> CreatedAt(w, init, i) && !(op.OpDestroyBlue? && ok)
      ensures SwitchedAt(w, ops, i) <==> SwitchedAt(w, init, i) && !MovesTraffic(op, ok)
    {
      CreatedSplit(w, init, op, i);
      SwitchedSplit(w, init, op, i);
    }
  }

  lemma NotedSwitch(k: Known, op: Op, ok: bool)
    ensures Note(k, op, ok).green <==> (op.OpCreateGreen? && ok) || (k.green && !(op.OpDestroyBlue? && ok))
    ensures Note(k, op, ok).switched <==>
              if op.OpSwitchTraffic? && ok then k.green
              else k.switched && !MovesTraffic(op, ok) && !(op.OpDestroyBlue? && ok)
  {
  }

  lemma {:induction false} GreenKnown(w: World, ops: seq<Op>) returns (i: nat)
    requires Learned(w, ops).green
    ensures i < |ops| && CreatedAt(w, ops, i)
    decreases |ops|
  {
    var init, op, ok := LastCall(w, ops);
    NotedSwitch(Learned(w, init), op, ok);
    if op.OpCreateGreen? && ok { i := |init|; } else { i := GreenKnown(w, init); }
  }

  lemma {:induction false} GreenIsKnown(w: World, ops: seq<Op>, i: nat)
    requires i < |ops| && CreatedAt(w, ops, i)
    ensures Learned(w, ops).green
    decreases |ops|
  {
    var init, op, ok := LastCall(w, ops);
    NotedSwitch(Learned(w, init), op, ok);
    if i < |init| { GreenIsKnown(w, init, i); }
  }

  lemma {:induction false} SwitchKnown(w: World, ops: seq<Op>) returns (i: nat, j: nat)
    requires Learned(w, ops).switched
    ensures i < j < |ops| && CreatedAt(w, ops, i) && SwitchedAt(w, ops, j)
    decreases |ops|
  {
    var init, op, ok := LastCall(w, ops);
    NotedSwitch(Learned(w, init), op, ok);
    if op.OpSwitchTraffic? && ok {
      i := GreenKnown(w, init);
      j := |init|;
    } else {
      i, j := SwitchKnown(w, init);
    }
  }

  lemma {:induction false} SwitchIsKnown(w: World, ops: seq<Op>, i: nat, j: nat)
    requires i < j < |ops| && CreatedAt(w, ops, i) && SwitchedAt(w, ops, j)
    ensures Learned(w, ops).switched
    decreases |ops|
  {
    var init, op, ok := LastCall(w, ops);
    NotedSwitch(Learned(w, init), op, ok);
    if i < |init| { GreenIsKnown(w, init, i); }
    if j < |init| { SwitchIsKnown(w, init, i, j); }
  }

  /** Traffic is known to be on a green exactly when some call created a green that no later
      call promoted, and a call after it switched traffic, which no later call moved. */
  lemma SwitchedIff(w: World, ops: seq<Op>)
    ensures Learned(w, ops).switched <==>
            exists i: nat, j: nat :: i < j < |ops| && CreatedAt(w, ops, i) && SwitchedAt(w, ops, j)
  {
    if Learned(w, ops).switched {
      var i, j := SwitchKnown(w, ops);
    }
    forall i: nat, j: nat | i < j < |ops| && CreatedAt(w, ops, i) && SwitchedAt(w, ops, j) ensures Learned(w, ops).switched {
      SwitchIsKnown(w, ops, i, j);
    }
  }

  /** The i-th call gave a canary traffic, which no later switch or promotion took back. */
  ghost predicate RoutedAt(w: World, ops: seq<Op>, i: nat)
    requires i < |ops|
  {
    && ops[i].OpRoutePercent? && Succeeded(w, ops, i)
    && forall m: nat | i < m < |ops| :: !TakesBack(ops[m], Succeeded(w, ops, m))
  }

  predicate TakesBack(op: Op, ok: bool) { (op.OpSwitchTraffic? || op.OpPromoteCanary?) && ok }

  lemma RoutedSplit(w: World, init: seq<Op>, op: Op, i: nat)
    requires i < |init|
    ensures RoutedAt(w, init + [op], i) <==> RoutedAt(w, init, i) && !TakesBack(op, Apply(Run(w, init), op).1)
  {
    var ops := init + [op];
    forall m: nat | m <= |init|
      ensures Succeeded(w, ops, m) == if m < |init| then Succeeded(w, init, m) else Apply(Run(w, init), op).1
    {
      SucceededSplit(w, init, op, m);
    }
    assert forall m: nat | m < |init| :: ops[m] == init[m];
    assert ops[|init|] == op;
  }

  /** What the last call of a run does to traffic on canaries, given its result. */
  lemma LastRoute(w: World, ops: seq<Op>) returns (init: seq<Op>, op: Op, ok: bool)
    requires ops != []
    ensures ops == init + [op] && Learned(w, ops) == Note(Learned(w, init), op, ok)
    ensures forall i: nat | i < |init| :: RoutedAt(w, ops, i) <==> RoutedAt(w, init, i) && !TakesBack(op, ok)
    ensures RoutedAt(w, ops, |init|) <==> op.OpRoutePercent? && ok
  {
    init, op := ops[..|ops| - 1], ops[|ops| - 1];
    ok := Apply(Run(w, init), op).1;
    assert ops == init + [op];
    RunSplit(w, init, op);
    SucceededSplit(w, init, op, |init|);
    forall i: nat | i < |init| ensures RoutedAt(w, ops, i) <==> RoutedAt(w, init, i) && !TakesBack(op, ok) {
      RoutedSplit(w, init, op, i);
    }
  }

  lemma NotedRoute(k: Known, op: Op, ok: bool)
    ensures Note(k, op, ok).routed <==> (op.OpRoutePercent? && ok) || (k.routed && !TakesBack(op, ok))
  {
  }

  lemma {:induction false} RouteKnown(w: World, ops: seq<Op>) returns (i: nat)
    requires Learned(w, ops).routed
    ensures i < |ops| && RoutedAt(w, ops, i)
    decreases |ops|
  {
    var init, op, ok := LastRoute(w, ops);
    NotedRoute(Learned(w, init), op, ok);
    if op.OpRoutePercent? && ok { i := |init|; } else { i := RouteKnown(w, init); }
  }

  lemma {:induction false} RouteIsKnown(w: World, ops: seq<Op>, i: nat)
    requires i < |ops| && RoutedAt(w, ops, i)
    ensures Learned(w, ops).routed
    decreases |ops|
  {
    var init, op, ok := LastRoute(w, ops);
    NotedRoute(Learned(w, init), op, ok);
    if i < |init| { RouteIsKnown(w, init, i); }
  }

  /** A canary may have traffic, as far as is known, exactly when some call gave it some and
      no later switch or promotion succeeded. */
  lemma RoutedIff(w: World, ops: seq<Op>)
    ensures Learned(w, ops).routed <==> exists i: nat :: i < |ops| && RoutedAt(w, ops, i)
  {
    if Learned(w, ops).routed {
      var i := RouteKnown(w, ops);
    }
    forall i: nat | i < |ops| && RoutedAt(w, ops, i) ensures Learned(w, ops).routed {
      RouteIsKnown(w, ops, i);
    }
  }
}
