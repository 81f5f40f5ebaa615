/** What disciplined runs keep besides safety: what the driver remembers is there. */
module DeployReach {
  import opened Wrappers
  import opened EcsCloud
  import opened Deploy
  import opened DeploySafety
  import opened DeployCanary
  import opened Text

  /** The green and canary the driver remembers are where it left them, and the service
      health checks look at exists. */
  ghost predicate Tidy(w: World) {
    && Inv(w)
    && w.cloud.groups[w.stableTG] != w.serviceName + "-green-tg"
    && (w.greenService != "" ==> w.greenService == w.serviceName + "-green")
    && (w.greenTG != "" ==> w.cloud.groups[w.greenTG] == w.serviceName + "-green-tg")
    && (w.canaryService != "" ==>
          HasSuffix(w.canaryService, "-canary") && w.canaryService in w.cloud.services && w.canaryService != w.serviceName)
    && ActiveService(w) in w.cloud.services
  }

  lemma GreenServiceIsNoCanary(name: string)
    ensures !(HasSuffix(name + "-green", "-canary"))
    ensures HasSuffix(name + "-canary", "-canary")
  {
    SuffixOfConcat(name, "-green");
    SuffixOfConcat(name, "-canary");
    SuffixesClash(name + "-green", "-green", "-canary", 1);
  }

  lemma GreenGroupIsNoCanary(name: string)
    ensures !HasSuffix(name + "-green-tg", "-canary-tg")
  {
    SuffixOfConcat(name, "-green-tg");
    GreenIsNotCanary(name + "-green-tg");
  }

  /** A new group keeps every name the groups had. */
  lemma NewGroupKeepsNames(c: Cloud, name: string)
    ensures var (c', tg) := c.NewGroup(name);
            && c'.services == c.services && c'.listener == c.listener && c'.fate == c.fate
            && (forall a | a in c.groups :: a in c'.groups && c'.groups[a] == c.groups[a])
            && (tg.Some? ==> tg.value in c'.groups && c'.groups[tg.value] == name)
  {
  }

  /** Nothing that Tidy looks at is lost, and what is new is the service's own green or canary. */
  ghost predicate Grew(w: World, w': World) {
    && w'.serviceName == w.serviceName && w'.stableTG == w.stableTG
    && w'.cloud.listener == w.cloud.listener && w'.cloud.fate == w.cloud.fate
    && w.cloud.services.Keys <= w'.cloud.services.Keys
    && (forall a | a in w.cloud.groups :: a in w'.cloud.groups && w'.cloud.groups[a] == w.cloud.groups[a])
    && (w'.greenService == w.greenService
        || (w'.greenService == w.serviceName + "-green" && w'.greenService in w'.cloud.services))
    && (w'.greenTG == w.greenTG
        || (w'.greenTG in w'.cloud.groups && w'.cloud.groups[w'.greenTG] == w.serviceName + "-green-tg"))
    && (w'.canaryService == w.canaryService
        || (w'.canaryService == w.serviceName + "-canary" && w'.canaryService in w'.cloud.services))
  }

  lemma TidyGrows(w: World, w': World)
    requires Tidy(w) && Inv(w') && Grew(w, w')
    ensures Tidy(w')
  {
    GreenServiceIsNoCanary(w.serviceName);
    assert |w.serviceName + "-canary"| > |w.serviceName|;
  }

  lemma CreateGreenGrows(w: World, image: string)
    ensures Grew(w, CreateGreen(w, image).0)
  {
    var name := w.serviceName + "-green";
    assert name + "-tg" == w.serviceName + "-green-tg";
    var (c1, td) := w.cloud.Register(name, image);
    NewGroupKeepsNames(c1, name + "-tg");
    var (c2, tg) := c1.NewGroup(name + "-tg");
    if td.Some? && tg.Some? {
      var c3 := c2.NewService(name, td.value, 1, tg.value).0;
      assert c3.groups == c2.groups && c3.listener == c2.listener && c3.fate == c2.fate;
      assert c2.services.Keys <= c3.services.Keys;
    }
  }

  lemma CreateGreenTidy(w: World, image: string)
    requires Tidy(w)
    ensures Tidy(CreateGreen(w, image).0)
  {
    CreateGreenKeepsInv(w, image);
    CreateGreenGrows(w, image);
    TidyGrows(w, CreateGreen(w, image).0);
  }

  lemma CreateCanaryGrows(w: World, image: string)
    ensures Grew(w, CreateCanary(w, image).0)
  {
    var name := w.serviceName + "-canary";
    var (c1, td) := w.cloud.Register(name, image);
    NewGroupKeepsNames(c1, name + "-tg");
    var (c2, tg) := c1.NewGroup(name + "-tg");
    if td.Some? && tg.Some? {
      var c3 := c2.NewService(name, td.value, 1, tg.value).0;
      assert c3.groups == c2.groups && c3.listener == c2.listener && c3.fate == c2.fate;
      assert c2.services.Keys <= c3.services.Keys;
    }
  }

  lemma CreateCanaryTidy(w: World, image: string)
    requires Tidy(w)
    ensures Tidy(CreateCanary(w, image).0)
  {
    CreateCanaryKeepsInv(w, image);
    CreateCanaryGrows(w, image);
    TidyGrows(w, CreateCanary(w, image).0);
  }

  lemma UpdateGrows(w: World, image: string)
    ensures Grew(w, Update(w, image).0)
  {
  }

  lemma UpdateTidy(w: World, image: string)
    requires Tidy(w)
    ensures Tidy(Update(w, image).0)
  {
    UpdateKeepsInv(w, image);
    UpdateGrows(w, image);
    TidyGrows(w, Update(w, image).0);
  }

  lemma CanaryImageGrows(w: World)
    ensures var w' := CanaryImage(w).0; w' == w.(cloud := w'.cloud) && Grew(w, w')
    ensures CanaryImage(w).0.cloud.groups == w.cloud.groups
  {
  }

  lemma CanaryImageTidy(w: World)
    requires Tidy(w)
    ensures Tidy(CanaryImage(w).0)
  {
    CanaryImageGrows(w);
    InvFrame(w, CanaryImage(w).0.cloud);
    TidyGrows(w, CanaryImage(w).0);
  }

  lemma RouteTidy(w: World, forwards: seq<Forward>)
    requires Tidy(w) && forall k :: 0 <= k < |forwards| ==> forwards[k].group in w.cloud.groups
    ensures Tidy(w.(cloud := w.cloud.Route(forwards).0))
  {
    RouteKeepsInv(w, forwards);
  }

  /** Only the blue service can be gone. */
  lemma DestroyBlueServices(w: World)
    ensures w.cloud.services.Keys - {w.serviceName} <= DestroyBlue(w).0.cloud.services.Keys
  {
    var (c1, _) := w.cloud.Change(w.serviceName, None, Some(0));
    assert c1.services.Keys == w.cloud.services.Keys;
  }

  lemma DestroyBlueTidy(w: World)
    requires Tidy(w) && BlueDrained(w)
    ensures Tidy(DestroyBlue(w).0)
  {
    DestroyBlueKeepsInv(w);
    DestroyBlueEffect(w);
    DestroyBlueServices(w);
    GreenServiceIsNoCanary(w.serviceName);
    assert |w.serviceName + "-green"| > |w.serviceName|;
    assert |w.serviceName + "-green" + "-green-tg"| > |w.serviceName + "-green-tg"|;
  }

  lemma ServiceTeardownTidy(w: World)
    requires Tidy(w)
    ensures Tidy(DestroyCanaryService(w).0)
    ensures DestroyCanaryService(w).0.cloud.listener == w.cloud.listener
    ensures DestroyCanaryService(w).0.canaryTG == w.canaryTG
  {
    GreenServiceIsNoCanary(w.serviceName);
    InvFrame(w, DestroyCanaryService(w).0.cloud);
  }

  lemma TeardownTidy(w: World)
    requires Tidy(w) && !Names(w.cloud.listener, w.canaryTG)
    ensures Tidy(DestroyCanaryResources(w).0)
  {
    ServiceTeardownTidy(w);
    var (w1, ok) := DestroyCanaryService(w);
    if ok {
      DestroyCanaryGroupKeepsInv(w1);
      GreenGroupIsNoCanary(w.serviceName);
    }
  }

  lemma RestoreTidy(w: World)
    requires Tidy(w)
    ensures Tidy(RestoreListener(w).0)
  {
    RouteTidy(w, [Forward(w.stableTG, 1)]);
  }

  lemma DestroyCanaryTidy(w: World)
    requires Tidy(w) && CanaryDrained(w)
    ensures Tidy(DestroyCanary(w).0)
  {
    RestoreTidy(w);
    RestoredListenerDrains(w);
    if w.canaryTG != "" {
      TeardownTidy(if w.stableTG != "" && w.hasListener then RestoreListener(w).0 else w);
    }
  }

  lemma PromoteCanaryTidy(w: World)
    requires Tidy(w)
    ensures Tidy(PromoteCanary(w).0)
  {
    var (w1, image) := CanaryImage(w);
    CanaryImageTidy(w);
    if w.canaryService != "" && image.Some? {
      UpdateTidy(w1, image.value);
      var (w2, updated) := Update(w1, image.value);
      if updated { PromotionEndTidy(w2); }
    }
  }

  lemma PromotionEndTidy(w: World)
    requires Tidy(w)
    ensures var (w', ok) := RestoreListener(w);
            Tidy(w') && (ok && w.canaryTG != "" ==> Tidy(DestroyCanaryResources(w').0))
  {
    RestoreTidy(w);
    RestoredListenerDrains(w);
    if RestoreListener(w).1 && w.canaryTG != "" { TeardownTidy(RestoreListener(w).0); }
  }

  lemma ApplyTidy(w: World, op: Op)
    requires Tidy(w) && Allowed(w, op)
    ensures Tidy(Apply(w, op).0)
  {
    match op
    case OpUpdate(image) => UpdateTidy(w, image);
    case OpCreateGreen(image) => CreateGreenTidy(w, image);
    case OpSwitchTraffic => if w.greenTG != "" { RouteTidy(w, [Forward(w.greenTG, 1)]); }
    case OpDestroyBlue => DestroyBlueTidy(w);
    case OpCreateCanary(image) => CreateCanaryTidy(w, image);
    case OpRoutePercent(percent) => if w.canaryTG != "" { RouteTidy(w, CanarySplit(w, percent)); }
    case OpPromoteCanary => PromoteCanaryTidy(w);
    case OpDestroyCanary => DestroyCanaryTidy(w);
  }

  lemma {:induction false} RunTidy(w: World, ops: seq<Op>)
    requires Tidy(w) && Disciplined(w, ops)
    ensures Tidy(Run(w, ops))
  {
    if ops != [] {
      var n := |ops| - 1;
      forall k | 0 <= k < n ensures Allowed(Run(w, ops[..n][..k]), ops[..n][k]) {
        assert ops[..n][..k] == ops[..k];
      }
      RunTidy(w, ops[..n]);
      ApplyTidy(Run(w, ops[..n]), ops[n]);
    }
  }

  /** On every disciplined run the service that health checks look at exists. */
  lemma ActiveServiceExists(w: World, ops: seq<Op>)
    requires Tidy(w) && Disciplined(w, ops)
    ensures ActiveService(Run(w, ops)) in Run(w, ops).cloud.services
  {
    RunTidy(w, ops);
  }

  /** On every disciplined run a teardown whose calls go through leaves nothing owed. */
  lemma TeardownCompletes(w: World, ops: seq<Op>)
    requires Tidy(w) && Disciplined(w, ops)
    requires forall n :: n >= |Run(w, ops).cloud.log| ==> w.cloud.fate(n).ok
    ensures DestroyCanary(Run(w, ops)).1 && Pending(DestroyCanary(Run(w, ops)).0) == []
  {
    RunTidy(w, ops);
    RunKeepsFate(w, ops);
    TeardownFinishes(Run(w, ops));
  }

  lemma TeardownKeepsFate(w: World)
    ensures DestroyCanaryResources(w).0.cloud.fate == w.cloud.fate
  {
  }

  lemma PromotionKeepsFate(w: World)
    ensures PromoteCanary(w).0.cloud.fate == w.cloud.fate
  {
    var (w1, image) := CanaryImage(w);
    CanaryImageGrows(w);
    if image.Some? {
      UpdateGrows(w1, image.value);
      var w2 := Update(w1, image.value).0;
      TeardownKeepsFate(RestoreListener(w2).0);
    }
  }

  lemma ApplyKeepsFate(w: World, op: Op)
    ensures Apply(w, op).0.cloud.fate == w.cloud.fate
  {
    match op
    case OpUpdate(image) => UpdateGrows(w, image);
    case OpCreateGreen(image) => CreateGreenGrows(w, image);
    case OpCreateCanary(image) => CreateCanaryGrows(w, image);
    case OpDestroyCanary =>
      TeardownKeepsFate(w);
      TeardownKeepsFate(RestoreListener(w).0);
    case OpPromoteCanary => PromotionKeepsFate(w);
    case _ =>
  }

  lemma {:induction false} RunKeepsFate(w: World, ops: seq<Op>)
    ensures Run(w, ops).cloud.fate == w.cloud.fate
  {
    if ops != [] {
      RunKeepsFate(w, ops[..|ops| - 1]);
      ApplyKeepsFate(Run(w, ops[..|ops| - 1]), ops[|ops| - 1]);
    }
  }

  /** Some service is behind a group. */
  ghost predicate Backed(c: Cloud, group: string) {
    exists s :: s in c.services && c.services[s].group == group
  }

  /** CreateGreen remembers its group before it creates the service, and SwitchTraffic looks
      only at the group. So a switch leads to a group with a service behind it exactly when
      the creation before it succeeded, or had been answered with a group already backed. */
  lemma SwitchReachesServiceIff(w: World, image: string)
    ensures var (w1, created) := CreateGreen(w, image); var (w2, switched) := SwitchTraffic(w1);
            switched ==>
              && w2.cloud.listener == [Forward(w1.greenTG, 1)]
              && (Backed(w2.cloud, w1.greenTG) <==> created || Backed(w.cloud, w1.greenTG))
  {
    var (w1, created) := CreateGreen(w, image);
    var name := w.serviceName + "-green";
    if created {
      assert name in w1.cloud.services && w1.cloud.services[name].group == w1.greenTG;
    } else {
      assert w1.cloud.services == w.cloud.services;
    }
    assert forall s | s in w.cloud.services :: s in w1.cloud.services && w1.cloud.services[s] == w.cloud.services[s];
  }
}
