/** Which runs keep the listener on target groups that exist, and exactly when the two
    unguarded teardowns break that. */
module DeploySafety {
  import opened Wrappers
  import opened EcsCloud
  import opened Deploy
  import opened Text

  ghost predicate Names(listener: seq<Forward>, arn: string) {
    exists k :: 0 <= k < |listener| && listener[k].group == arn
  }

  /** The listener names only existing groups, the stable group exists, and the driver
      still manages a service. */
  ghost predicate Safe(w: World) {
    && (forall k :: 0 <= k < |w.cloud.listener| ==> w.cloud.listener[k].group in w.cloud.groups)
    && w.stableTG in w.cloud.groups
    && w.serviceName != ""
  }

  ghost predicate Inv(w: World) {
    && Safe(w)
    && "" !in w.cloud.groups
    && !HasSuffix(w.cloud.groups[w.stableTG], "-canary-tg")
    && (w.greenService != "" ==> w.greenTG != "")
    && (w.greenTG != "" ==> w.greenTG in w.cloud.groups && HasSuffix(w.cloud.groups[w.greenTG], "-green-tg"))
    && (w.canaryService != "" ==> w.canaryTG != "")
    && (w.canaryTG != "" ==> w.canaryTG in w.cloud.groups && HasSuffix(w.cloud.groups[w.canaryTG], "-canary-tg"))
  }

  /** Green exists as a service with a group of its own, and the listener no longer names
      the stable group. */
  ghost predicate BlueDrained(w: World) {
    w.greenService != "" && w.greenTG != w.stableTG && !Names(w.cloud.listener, w.stableTG)
  }

  /** After the restore that DestroyCanary attempts, the listener does not name the canary. */
  ghost predicate CanaryDrained(w: World) {
    w.canaryTG == "" || !Names(w.cloud.listener, w.canaryTG)
    || (w.stableTG != "" && w.hasListener && RestoreListener(w).1)
  }

  /** The two rules a caller has to keep; every other operation is free. */
  ghost predicate Allowed(w: World, op: Op) {
    && (op.OpDestroyBlue? ==> BlueDrained(w))
    && (op.OpDestroyCanary? ==> CanaryDrained(w))
  }

  ghost predicate Disciplined(w: World, ops: seq<Op>) {
    forall k :: 0 <= k < |ops| ==> Allowed(Run(w, ops[..k]), ops[k])
  }

  lemma GreenIsNotCanary(name: string)
    ensures !(HasSuffix(name, "-green-tg") && HasSuffix(name, "-canary-tg"))
  {
    SuffixesClash(name, "-green-tg", "-canary-tg", 4);
  }

  lemma NewGroupNames(base: string)
    ensures HasSuffix(base + "-green" + "-tg", "-green-tg")
    ensures HasSuffix(base + "-canary" + "-tg", "-canary-tg")
  {
    assert base + "-green" + "-tg" == base + "-green-tg";
    assert base + "-canary" + "-tg" == base + "-canary-tg";
    SuffixOfConcat(base, "-green-tg");
    SuffixOfConcat(base, "-canary-tg");
  }

  /** Inv looks only at the driver's fields, the groups and the listener. */
  lemma InvFrame(w: World, c: Cloud)
    requires Inv(w) && c.groups == w.cloud.groups && c.listener == w.cloud.listener
    ensures Inv(w.(cloud := c))
  {
  }

  /** A new group leaves every group it found. */
  lemma NewGroupKeepsInv(w: World, name: string)
    requires Inv(w)
    ensures var (c, tg) := w.cloud.NewGroup(name);
            && Inv(w.(cloud := c))
            && (tg.Some? ==> tg.value != "" && tg.value in c.groups && c.groups[tg.value] == name)
  {
    var (c, tg) := w.cloud.NewGroup(name);
    assert forall a :: a in w.cloud.groups ==> a in c.groups && c.groups[a] == w.cloud.groups[a];
  }

  lemma CreateGreenKeepsInv(w: World, image: string)
    requires Inv(w)
    ensures Inv(CreateGreen(w, image).0)
  {
    var name := w.serviceName + "-green";
    var (c1, td) := w.cloud.Register(name, image);
    NewGroupNames(w.serviceName);
    InvFrame(w, c1);
    if td.Some? {
      var (c2, tg) := c1.NewGroup(name + "-tg");
      NewGroupKeepsInv(w.(cloud := c1), name + "-tg");
      if tg.Some? {
        var w2 := w.(cloud := c2, greenTG := tg.value);
        assert Inv(w2);
        InvFrame(w2, c2.NewService(name, td.value, 1, tg.value).0);
      }
    }
  }

  lemma CreateCanaryKeepsInv(w: World, image: string)
    requires Inv(w)
    ensures Inv(CreateCanary(w, image).0)
  {
    var name := w.serviceName + "-canary";
    var (c1, td) := w.cloud.Register(name, image);
    NewGroupNames(w.serviceName);
    InvFrame(w, c1);
    if td.Some? {
      var (c2, tg) := c1.NewGroup(name + "-tg");
      NewGroupKeepsInv(w.(cloud := c1), name + "-tg");
      if tg.Some? {
        var w2 := w.(cloud := c2, canaryTG := tg.value);
        assert Inv(w2);
        InvFrame(w2, c2.NewService(name, td.value, 1, tg.value).0);
      }
    }
  }

  lemma UpdateFrame(w: World, image: string)
    ensures var w' := Update(w, image).0;
            && w' == w.(cloud := w'.cloud)
            && w'.cloud.groups == w.cloud.groups && w'.cloud.listener == w.cloud.listener
  {
    var (c1, td) := w.cloud.Register(w.serviceName, image);
    assert c1.groups == w.cloud.groups && c1.listener == w.cloud.listener;
  }

  lemma UpdateKeepsInv(w: World, image: string)
    requires Inv(w)
    ensures Inv(Update(w, image).0)
  {
    UpdateFrame(w, image);
    InvFrame(w, Update(w, image).0.cloud);
  }

  /** Pointing the listener at existing groups keeps the invariant. */
  lemma RouteKeepsInv(w: World, forwards: seq<Forward>)
    requires Inv(w) && forall k :: 0 <= k < |forwards| ==> forwards[k].group in w.cloud.groups
    ensures Inv(w.(cloud := w.cloud.Route(forwards).0))
  {
  }

  lemma DestroyBlueEffect(w: World)
    requires Inv(w)
    ensures var (w', ok) := DestroyBlue(w);
            && w'.cloud.listener == w.cloud.listener
            && w'.cloud.groups == (if ok then w.cloud.groups - {w.stableTG} else w.cloud.groups)
            && w' == (if ok then w.(cloud := w'.cloud, serviceName := w.greenService, stableTG := w.greenTG,
                                    greenService := "", greenTG := "")
                      else w.(cloud := w'.cloud))
  {
    var (c1, _) := w.cloud.Change(w.serviceName, None, Some(0));
    var (c2, gone) := c1.DropService(w.serviceName);
    assert c2.groups == c1.groups == w.cloud.groups && c2.listener == c1.listener == w.cloud.listener;
  }

  lemma DestroyBlueKeepsInv(w: World)
    requires Inv(w) && BlueDrained(w)
    ensures Inv(DestroyBlue(w).0)
  {
    DestroyBlueEffect(w);
    GreenIsNotCanary(w.cloud.groups[w.greenTG]);
    if !DestroyBlue(w).1 {
      InvFrame(w, DestroyBlue(w).0.cloud);
    }
  }

  lemma DestroyCanaryGroupKeepsInv(w: World)
    requires Inv(w) && w.canaryService == "" && !Names(w.cloud.listener, w.canaryTG)
    ensures Inv(DestroyCanaryGroup(w).0)
  {
    if w.greenTG != "" && w.canaryTG != "" {
      GreenIsNotCanary(w.cloud.groups[w.greenTG]);
    }
  }

  lemma DestroyCanaryResourcesKeepsInv(w: World)
    requires Inv(w) && !Names(w.cloud.listener, w.canaryTG)
    ensures Inv(DestroyCanaryResources(w).0)
  {
    var (w1, ok) := DestroyCanaryService(w);
    InvFrame(w, w1.cloud);
    if ok {
      DestroyCanaryGroupKeepsInv(w1);
    }
  }

  /** Once the listener is back on stable alone it does not name the canary. */
  lemma RestoredListenerDrains(w: World)
    requires Inv(w)
    ensures Inv(RestoreListener(w).0)
    ensures RestoreListener(w).1 && w.canaryTG != "" ==> !Names(RestoreListener(w).0.cloud.listener, w.canaryTG)
    ensures !RestoreListener(w).1 ==> RestoreListener(w).0.cloud.listener == w.cloud.listener
  {
    RouteKeepsInv(w, [Forward(w.stableTG, 1)]);
  }

  lemma DestroyCanaryKeepsInv(w: World)
    requires Inv(w) && CanaryDrained(w)
    ensures Inv(DestroyCanary(w).0)
  {
    RestoredListenerDrains(w);
    if w.canaryTG != "" {
      DestroyCanaryResourcesKeepsInv(if w.stableTG != "" && w.hasListener then RestoreListener(w).0 else w);
    }
  }

  lemma PromoteCanaryKeepsInv(w: World)
    requires Inv(w)
    ensures Inv(PromoteCanary(w).0)
  {
    if w.canaryService != "" {
      var (w1, image) := CanaryImage(w);
      InvFrame(w, w1.cloud);
      if image.Some? {
        UpdateKeepsInv(w1, image.value);
        var (w2, updated) := Update(w1, image.value);
        RestoredListenerDrains(w2);
        if updated && RestoreListener(w2).1 {
          DestroyCanaryResourcesKeepsInv(RestoreListener(w2).0);
        }
      }
    }
  }

  lemma ApplyKeepsInv(w: World, op: Op)
    requires Inv(w) && Allowed(w, op)
    ensures Inv(Apply(w, op).0)
  {
    match op
    case OpUpdate(image) => UpdateKeepsInv(w, image);
    case OpCreateGreen(image) => CreateGreenKeepsInv(w, image);
    case OpSwitchTraffic => if w.greenTG != "" { RouteKeepsInv(w, [Forward(w.greenTG, 1)]); }
    case OpDestroyBlue => DestroyBlueKeepsInv(w);
    case OpCreateCanary(image) => CreateCanaryKeepsInv(w, image);
    case OpRoutePercent(percent) => if w.canaryTG != "" { RouteKeepsInv(w, CanarySplit(w, percent)); }
    case OpPromoteCanary => PromoteCanaryKeepsInv(w);
    case OpDestroyCanary => DestroyCanaryKeepsInv(w);
  }

  /** On every run that keeps the two rules, whichever calls fail, the listener only names
      target groups that exist and the driver's stable group exists. */
  lemma {:induction false} DisciplinedRunsSafe(w: World, ops: seq<Op>)
    requires Inv(w) && Disciplined(w, ops)
    ensures Inv(Run(w, ops)) && Safe(Run(w, ops))
  {
    if ops != [] {
      var n := |ops| - 1;
      forall k | 0 <= k < n ensures Allowed(Run(w, ops[..n][..k]), ops[..n][k]) {
        assert ops[..n][..k] == ops[..k];
      }
      DisciplinedRunsSafe(w, ops[..n]);
      ApplyKeepsInv(Run(w, ops[..n]), ops[n]);
    }
  }

  /* ----- the rules are exactly right ----- */

  /** The same world facing another fate. */
  function Facing(w: World, fate: nat -> Fate): World { w.(cloud := w.cloud.(fate := fate)) }

  /** DestroyBlue has no guard. Whatever the calls do it leaves the system safe exactly when
      blue is drained, or when its service is already gone so that it cannot proceed. */
  lemma DestroyBlueSafeIff(w: World)
    requires Inv(w)
    ensures (forall fate :: Safe(DestroyBlue(Facing(w, fate)).0)) <==>
            BlueDrained(w) || w.serviceName !in w.cloud.services
  {
    if BlueDrained(w) {
      forall fate ensures Safe(DestroyBlue(Facing(w, fate)).0) {
        DestroyBlueKeepsInv(Facing(w, fate));
      }
    } else if w.serviceName in w.cloud.services {
      var lucky := (n: nat) => Fate(true, "", false);
      var w' := DestroyBlue(Facing(w, lucky)).0;
      assert w'.cloud.groups == w.cloud.groups - {w.stableTG};
      assert w'.cloud.listener == w.cloud.listener;
      assert !Safe(w');
    }
  }

  /** DestroyCanary ignores whether its restore succeeded. Whatever the calls do it leaves
      the system safe exactly when there is no canary group, or the listener does not name
      it, or the canary's service is gone so that the group is never reached. */
  lemma DestroyCanarySafeIff(w: World)
    requires Inv(w)
    ensures (forall fate :: Safe(DestroyCanary(Facing(w, fate)).0)) <==>
            w.canaryTG == "" || !Names(w.cloud.listener, w.canaryTG)
            || (w.canaryService != "" && w.canaryService !in w.cloud.services)
  {
    if w.canaryTG == "" || !Names(w.cloud.listener, w.canaryTG) {
      forall fate ensures Safe(DestroyCanary(Facing(w, fate)).0) {
        DestroyCanaryKeepsInv(Facing(w, fate));
      }
    } else if w.canaryService != "" && w.canaryService !in w.cloud.services {
      forall fate ensures Safe(DestroyCanary(Facing(w, fate)).0) {
        RestoredListenerDrains(Facing(w, fate));
      }
    } else {
      var unlucky := (n: nat) => Fate(n != |w.cloud.log|, "", false);
      var skipped := (n: nat) => Fate(true, "", false);
      var fate := if w.stableTG != "" && w.hasListener then unlucky else skipped;
      var w' := DestroyCanary(Facing(w, fate)).0;
      assert w'.cloud.groups == w.cloud.groups - {w.canaryTG};
      assert w'.cloud.listener == w.cloud.listener;
      assert !Safe(w');
    }
  }

  function GreensOnly(images: seq<string>): seq<Op> {
    seq(|images|, i requires 0 <= i < |images| => OpCreateGreen(images[i]))
  }

  /** Creating greens keeps the listener, the stable service and the stable group. */
  ghost predicate GreensAdded(w: World, w': World) {
    && w'.cloud.listener == w.cloud.listener && w'.stableTG == w.stableTG && w'.serviceName == w.serviceName
    && w.cloud.services.Keys <= w'.cloud.services.Keys
  }

  lemma GreenIsAdded(w: World, image: string)
    ensures GreensAdded(w, CreateGreen(w, image).0)
  {
  }

  lemma {:induction false} GreensKeepStable(w: World, images: seq<string>)
    requires Inv(w)
    ensures var w' := Run(w, GreensOnly(images)); Inv(w') && GreensAdded(w, w')
  {
    if images != [] {
      var n := |images| - 1;
      GreensKeepStable(w, images[..n]);
      assert GreensOnly(images)[..n] == GreensOnly(images[..n]);
      var w1 := Run(w, GreensOnly(images[..n]));
      assert Run(w, GreensOnly(images)) == Apply(w1, OpCreateGreen(images[n])).0;
      CreateGreenKeepsInv(w1, images[n]);
      GreenIsAdded(w1, images[n]);
    }
  }

  lemma PromotionLeaves(w: World)
    requires Inv(w) && SwitchTraffic(w).1 && BlueDrained(SwitchTraffic(w).0)
    requires w.greenService in w.cloud.services && w.greenService != w.serviceName
    requires DestroyBlue(SwitchTraffic(w).0).1
    ensures var w' := DestroyBlue(SwitchTraffic(w).0).0;
            Inv(w') && w'.cloud.listener == [Forward(w'.stableTG, 1)] && w'.serviceName in w'.cloud.services
  {
    var switched := SwitchTraffic(w).0;
    RouteKeepsInv(w, [Forward(w.greenTG, 1)]);
    DestroyBlueKeepsInv(switched);
  }

  /** That the last listener change was a successful SwitchTraffic is not enough. After a
      promotion that was itself safe the listener is on the new stable group, and stays
      there however many greens are created, so until traffic is switched again another
      DestroyBlue is not safe: some outcome of its calls leaves the listener on a group that
      is gone. */
  lemma PromotionNeedsFreshSwitch(w: World, images: seq<string>)
    requires Inv(w) && SwitchTraffic(w).1 && BlueDrained(SwitchTraffic(w).0)
    requires w.greenService in w.cloud.services && w.greenService != w.serviceName
    requires DestroyBlue(SwitchTraffic(w).0).1
    ensures var w' := Run(DestroyBlue(SwitchTraffic(w).0).0, GreensOnly(images));
            w'.cloud.listener == [Forward(w'.stableTG, 1)] && exists fate :: !Safe(DestroyBlue(Facing(w', fate)).0)
  {
    PromotionLeaves(w);
    var promoted := DestroyBlue(SwitchTraffic(w).0).0;
    GreensKeepStable(promoted, images);
    var w' := Run(promoted, GreensOnly(images));
    assert w'.cloud.listener[0].group == w'.stableTG;
    DestroyBlueSafeIff(w');
  }

  /** DestroyBlue cannot be resumed. Once its service is deleted while the group's deletion
      failed, no run of operations whatever brings the service back, so no later
      DestroyBlue succeeds and green is never promoted. */
  lemma {:induction false} HalfDestroyedForever(w: World, ops: seq<Op>)
    requires w.serviceName !in w.cloud.services
    ensures var w' := Run(w, ops);
            && w'.serviceName == w.serviceName
            && w'.serviceName !in w'.cloud.services
            && !DestroyBlue(w').1
  {
    if ops != [] {
      var n := |ops| - 1;
      HalfDestroyedForever(w, ops[..n]);
      ServiceStaysGone(Run(w, ops[..n]), ops[n]);
    }
  }

  lemma TeardownBringsNothingBack(w: World, name: string)
    requires name !in w.cloud.services
    ensures var w' := DestroyCanaryResources(w).0;
            w'.serviceName == w.serviceName && name !in w'.cloud.services
  {
  }

  lemma UpdateBringsNothingBack(w: World, image: string, name: string)
    requires name !in w.cloud.services
    ensures var w' := Update(w, image).0;
            w'.serviceName == w.serviceName && name !in w'.cloud.services
  {
  }

  lemma CreatesOtherNames(w: World, image: string)
    requires w.serviceName !in w.cloud.services
    ensures forall w' :: w' in {CreateGreen(w, image).0, CreateCanary(w, image).0} ==>
              w'.serviceName == w.serviceName && w'.serviceName !in w'.cloud.services
  {
    assert |w.serviceName + "-green"| > |w.serviceName| && |w.serviceName + "-canary"| > |w.serviceName|;
  }

  lemma ServiceStaysGone(w: World, op: Op)
    requires w.serviceName !in w.cloud.services
    ensures var w' := Apply(w, op).0;
            w'.serviceName == w.serviceName && w'.serviceName !in w'.cloud.services
  {
    match op
    case OpCreateGreen(image) => CreatesOtherNames(w, image);
    case OpCreateCanary(image) => CreatesOtherNames(w, image);
    case OpPromoteCanary =>
      var (w1, image) := CanaryImage(w);
      if image.Some? {
        UpdateBringsNothingBack(w1, image.value, w.serviceName);
        var w3 := RestoreListener(Update(w1, image.value).0).0;
        TeardownBringsNothingBack(w3, w.serviceName);
      }
    case OpDestroyCanary =>
      TeardownBringsNothingBack(w, w.serviceName);
      TeardownBringsNothingBack(RestoreListener(w).0, w.serviceName);
    case _ =>
  }

  /** DestroyBlue can still be completed exactly while the blue service exists. */
  lemma DestroyBlueCompletableIff(w: World)
    requires Inv(w)
    ensures (exists fate :: DestroyBlue(Facing(w, fate)).1) <==> w.serviceName in w.cloud.services
  {
    if w.serviceName in w.cloud.services {
      var lucky := (n: nat) => Fate(true, "", false);
      assert DestroyBlue(Facing(w, lucky)).1;
    }
  }
}
