/** Canaries: weights, promotion, and a teardown that can be resumed. */
module DeployCanary {
  import opened Wrappers
  import opened EcsCloud
  import opened Deploy
  import opened DeployCycles

  /** RoutePercent does not bound its argument. Both weights are proper percentages, and
      then sum to 100, exactly when the low 32 bits of the argument lie in 0..100. */
  lemma SplitWeights(w: World, percent: int)
    ensures var split := CanarySplit(w, percent);
            var (canary, stable) := (split[0].weight, split[1].weight);
            && (canary + stable) % 0x1_0000_0000 == 100
            && (0 <= canary <= 100 && 0 <= stable <= 100 && canary + stable == 100
                <==> percent % 0x1_0000_0000 <= 100)
            && (0 <= percent <= 100 ==> canary == percent && stable == 100 - percent)
            && split[0].group == w.canaryTG && split[1].group == w.stableTG
            && (RoutePercent(w, percent).1 ==> w.canaryTG != "" && RoutePercent(w, percent).0.cloud.listener == split)
  {
    var r := percent % 0x1_0000_0000;
    var q := percent / 0x1_0000_0000;
    assert 100 - percent == (100 - r) - q * 0x1_0000_0000;
    assert (100 - percent) % 0x1_0000_0000 == (100 - r) % 0x1_0000_0000;
  }

  /* ----- one canary, from creation to its end ----- */

  function Routes(percents: seq<int>): seq<Op> {
    seq(|percents|, i requires 0 <= i < |percents| => OpRoutePercent(percents[i]))
  }

  /** Routing changes nothing but the listener. */
  ghost predicate OnlyListenerMoved(w: World, w': World) {
    && w' == w.(cloud := w'.cloud)
    && w'.cloud.services == w.cloud.services && w'.cloud.groups == w.cloud.groups
    && w'.cloud.images == w.cloud.images && w'.cloud.fate == w.cloud.fate
  }

  lemma {:induction false} RoutesMoveOnlyListener(w: World, percents: seq<int>)
    ensures OnlyListenerMoved(w, Run(w, Routes(percents)))
  {
    if percents != [] {
      var n := |percents| - 1;
      RoutesMoveOnlyListener(w, percents[..n]);
      assert Routes(percents)[..n] == Routes(percents[..n]);
      assert Run(w, Routes(percents)) == RoutePercent(Run(w, Routes(percents[..n])), percents[n]).0;
    }
  }

  lemma CreateCanaryEffect(w: World, image: string)
    requires CreateCanary(w, image).1 && (w.serviceName + "-canary" + "-tg") !in w.cloud.groups.Values
    ensures var w' := CreateCanary(w, image).0; var name := w.serviceName + "-canary";
            && w' == w.(canaryService := name, canaryTG := w'.canaryTG, cloud := w'.cloud)
            && w'.canaryTG != "" && w'.canaryTG !in w.cloud.groups && name !in w.cloud.services
            && w'.cloud.services == w.cloud.services[name := Service(|w.cloud.images|, 1, w'.canaryTG)]
            && w'.cloud.groups == w.cloud.groups[w'.canaryTG := name + "-tg"]
            && w'.cloud.images == w.cloud.images + [image]
  {
    assert forall a :: a in w.cloud.groups ==> w.cloud.groups[a] in w.cloud.groups.Values;
  }

  lemma TeardownEffect(w: World)
    requires DestroyCanaryResources(w).1
    ensures var w' := DestroyCanaryResources(w).0;
            && w' == w.(canaryService := "", canaryTG := "", cloud := w'.cloud)
            && w'.cloud.services == (if w.canaryService == "" then w.cloud.services else w.cloud.services - {w.canaryService})
            && w'.cloud.groups == (if w.canaryTG == "" then w.cloud.groups else w.cloud.groups - {w.canaryTG})
            && w'.cloud.images == w.cloud.images && w'.cloud.listener == w.cloud.listener
  {
  }

  lemma PromoteEffect(w: World)
    requires PromoteCanary(w).1
    ensures var w' := PromoteCanary(w).0;
            && w.canaryService in w.cloud.services && w.serviceName in w.cloud.services
            && w.cloud.services[w.canaryService].taskDef < |w.cloud.images|
            && w' == w.(canaryService := "", canaryTG := "", cloud := w'.cloud)
            && w'.cloud.services == w.cloud.services[w.serviceName :=
                 w.cloud.services[w.serviceName].(taskDef := |w.cloud.images|)] - {w.canaryService}
            && w'.cloud.groups == (if w.canaryTG == "" then w.cloud.groups else w.cloud.groups - {w.canaryTG})
            && w'.cloud.images == w.cloud.images + [w.cloud.images[w.cloud.services[w.canaryService].taskDef]]
            && w'.cloud.listener == [Forward(w.stableTG, 1)]
  {
    var (w1, image) := CanaryImage(w);
    var w2 := Update(w1, image.value).0;
    TeardownEffect(RestoreListener(w2).0);
  }

  /** How a canary ends: promoted, or destroyed with the listener restored. */
  function Finish(w: World, promote: bool): (World, bool) {
    if promote then PromoteCanary(w)
    else
      var (w', ok) := DestroyCanary(w);
      (w', ok && w.stableTG != "" && w.hasListener && RestoreListener(w).1)
  }

  /** What is left of a canary that ended: groups as they were, services too but for the
      stable one's revision, all traffic on stable. */
  ghost predicate BackToStable(w: World, w': World) {
    && w' == w.(canaryService := "", canaryTG := "", cloud := w'.cloud)
    && w'.cloud.groups == w.cloud.groups
    && w'.cloud.services - {w.serviceName} == w.cloud.services - {w.serviceName}
    && w.serviceName in w.cloud.services && w.serviceName in w'.cloud.services
    && w'.cloud.services[w.serviceName].(taskDef := 0) == w.cloud.services[w.serviceName].(taskDef := 0)
    && w'.cloud.listener == [Forward(w.stableTG, 1)]
  }

  /** Only the canary was added, and only the listener moved since. */
  ghost predicate CanaryOut(w: World, w': World, image: string) {
    && w' == w.(canaryService := w'.canaryService, canaryTG := w'.canaryTG, cloud := w'.cloud)
    && w'.canaryService != "" && w'.canaryService !in w.cloud.services && w'.canaryService != w.serviceName
    && w'.canaryTG != "" && w'.canaryTG !in w.cloud.groups
    && w'.canaryService in w'.cloud.services && w'.cloud.services - {w'.canaryService} == w.cloud.services
    && w'.cloud.services[w'.canaryService].taskDef == |w.cloud.images|
    && w'.cloud.groups - {w'.canaryTG} == w.cloud.groups
    && w'.cloud.images == w.cloud.images + [image]
  }

  lemma CanaryIsOut(w: World, image: string, percents: seq<int>)
    requires (w.serviceName + "-canary" + "-tg") !in w.cloud.groups.Values
    requires CreateCanary(w, image).1
    ensures CanaryOut(w, Run(CreateCanary(w, image).0, Routes(percents)), image)
  {
    var w1 := CreateCanary(w, image).0;
    CreateCanaryEffect(w, image);
    RoutesMoveOnlyListener(w1, percents);
    assert |w1.canaryService| > |w.serviceName|;
    assert w.cloud.services[w1.canaryService := w1.cloud.services[w1.canaryService]] - {w1.canaryService} == w.cloud.services;
    assert w.cloud.groups[w1.canaryTG := w1.canaryService + "-tg"] - {w1.canaryTG} == w.cloud.groups;
  }

  lemma PromotionEndsCanary(w: World, w2: World, image: string)
    requires CanaryOut(w, w2, image) && PromoteCanary(w2).1
    ensures var w' := PromoteCanary(w2).0;
            BackToStable(w, w') && StableImage(w') == Some(image)
  {
    PromoteEffect(w2);
    var s := w2.cloud.services[w.serviceName].(taskDef := |w2.cloud.images|);
    assert w2.cloud.services[w.serviceName := s] - {w2.canaryService}
        == (w2.cloud.services - {w2.canaryService})[w.serviceName := s];
    assert w.cloud.services[w.serviceName] == (w2.cloud.services - {w2.canaryService})[w.serviceName];
  }

  lemma DestructionEndsCanary(w: World, w2: World, image: string)
    requires CanaryOut(w, w2, image) && Finish(w2, false).1
    requires w.serviceName in w.cloud.services && w.cloud.services[w.serviceName].taskDef < |w.cloud.images|
    ensures var w' := Finish(w2, false).0;
            BackToStable(w, w') && StableImage(w') == StableImage(w)
  {
    TeardownEffect(RestoreListener(w2).0);
  }

  /** A canary that is created, routed to in any way and successfully ended leaves services
      and groups as they were and all traffic on stable; promotion has moved the stable
      service to the canary's image, destruction has left it on its own. */
  lemma CanaryRound(w: World, image: string, percents: seq<int>, promote: bool)
    requires w.serviceName in w.cloud.services && w.cloud.services[w.serviceName].taskDef < |w.cloud.images|
    requires (w.serviceName + "-canary" + "-tg") !in w.cloud.groups.Values
    requires CreateCanary(w, image).1
    requires Finish(Run(CreateCanary(w, image).0, Routes(percents)), promote).1
    ensures var w' := Finish(Run(CreateCanary(w, image).0, Routes(percents)), promote).0;
            BackToStable(w, w') && StableImage(w') == (if promote then Some(image) else StableImage(w))
  {
    var w2 := Run(CreateCanary(w, image).0, Routes(percents));
    CanaryIsOut(w, image, percents);
    if promote {
      PromotionEndsCanary(w, w2, image);
    } else {
      DestructionEndsCanary(w, w2, image);
    }
  }

  /* ----- deletions, in the order of the call log ----- */

  predicate IsDelete(e: Event) {
    e.ok && (e.call.DeleteService? || e.call.DeleteTargetGroup?)
  }

  /** The deletions that succeeded. */
  function Deletions(log: seq<Event>): seq<Call> {
    if log == [] then []
    else
      var n := |log| - 1;
      Deletions(log[..n]) + (if IsDelete(log[n]) then [log[n].call] else [])
  }

  lemma LogGrows(log: seq<Event>, e: Event)
    ensures Deletions(log + [e]) == Deletions(log) + (if IsDelete(e) then [e.call] else [])
  {
    assert (log + [e])[..|log|] == log;
  }

  /** The deletions still owed for the canary the driver remembers. */
  function Pending(w: World): seq<Call> {
    (if w.canaryService == "" then [] else [DeleteService(w.canaryService)])
    + (if w.canaryTG == "" then [] else [DeleteTargetGroup(w.canaryTG)])
  }

  /** Done so far and still owed. */
  function Ledger(w: World): seq<Call> { Deletions(w.cloud.log) + Pending(w) }

  /** Settling what is owed first moves it from one side of the ledger to the other. */
  lemma Settle(done: seq<Call>, first: Call, rest: seq<Call>)
    ensures (done + [first]) + rest == done + ([first] + rest)
  {
  }

  lemma TwoCalls(c: Cloud, name: string)
    ensures var (c1, _) := c.Change(name, None, Some(0)); var (c2, gone) := c1.DropService(name);
            Deletions(c2.log) == Deletions(c.log) + if gone then [DeleteService(name)] else []
  {
    var (c1, scaled) := c.Change(name, None, Some(0));
    var gone := c1.DropService(name).1;
    LogGrows(c.log, Event(UpdateService(name, None, Some(0)), scaled));
    LogGrows(c1.log, Event(DeleteService(name), gone));
  }

  lemma ServiceTeardownBalances(w: World)
    ensures Ledger(DestroyCanaryService(w).0) == Ledger(w)
    ensures DestroyCanaryService(w).1 <==> DestroyCanaryService(w).0.canaryService == ""
    ensures DestroyCanaryService(w).0.canaryTG == w.canaryTG
  {
    if w.canaryService != "" {
      TwoCalls(w.cloud, w.canaryService);
      if DestroyCanaryService(w).1 {
        var rest := if w.canaryTG == "" then [] else [DeleteTargetGroup(w.canaryTG)];
        assert Pending(DestroyCanaryService(w).0) == rest;
        Settle(Deletions(w.cloud.log), DeleteService(w.canaryService), rest);
      }
    }
  }

  lemma GroupTeardownBalances(w: World)
    requires w.canaryService == ""
    ensures Ledger(DestroyCanaryGroup(w).0) == Ledger(w)
    ensures DestroyCanaryGroup(w).1 <==> DestroyCanaryGroup(w).0.canaryTG == ""
    ensures DestroyCanaryGroup(w).0.canaryService == ""
  {
    if w.canaryTG != "" {
      LogGrows(w.cloud.log, Event(DeleteTargetGroup(w.canaryTG), w.cloud.DropGroup(w.canaryTG).1));
    }
  }

  lemma TeardownBalances(w: World)
    ensures Ledger(DestroyCanaryResources(w).0) == Ledger(w)
    ensures DestroyCanaryResources(w).1 <==> Pending(DestroyCanaryResources(w).0) == []
  {
    ServiceTeardownBalances(w);
    var w1 := DestroyCanaryService(w).0;
    if DestroyCanaryService(w).1 {
      GroupTeardownBalances(w1);
    }
  }

  lemma RestoreIsQuiet(w: World)
    ensures Deletions(RestoreListener(w).0.cloud.log) == Deletions(w.cloud.log)
    ensures Pending(RestoreListener(w).0) == Pending(w)
  {
    LogGrows(w.cloud.log, Event(ModifyListener([Forward(w.stableTG, 1)]), RestoreListener(w).1));
  }

  /** DestroyCanary reports success exactly when nothing is owed any more. */
  lemma DestroyCanaryBalances(w: World)
    ensures Ledger(DestroyCanary(w).0) == Ledger(w)
    ensures DestroyCanary(w).1 <==> Pending(DestroyCanary(w).0) == []
  {
    if w.canaryTG != "" || w.canaryService != "" {
      RestoreIsQuiet(w);
      TeardownBalances(if w.stableTG != "" && w.hasListener then RestoreListener(w).0 else w);
    }
  }

  lemma ImageIsQuiet(w: World)
    ensures Deletions(CanaryImage(w).0.cloud.log) == Deletions(w.cloud.log)
    ensures Pending(CanaryImage(w).0) == Pending(w)
  {
    var (c1, service) := w.cloud.Describe(w.canaryService);
    LogGrows(w.cloud.log, Event(DescribeServices(w.canaryService), service.Some?));
    if service.Some? {
      var image := c1.DescribeImage(service.value.taskDef).1;
      LogGrows(c1.log, Event(DescribeTaskDefinition(service.value.taskDef), image.Some?));
    }
  }

  lemma UpdateIsQuiet(w: World, image: string)
    ensures Deletions(Update(w, image).0.cloud.log) == Deletions(w.cloud.log)
    ensures Pending(Update(w, image).0) == Pending(w)
  {
    var (c1, td) := w.cloud.Register(w.serviceName, image);
    LogGrows(w.cloud.log, Event(RegisterTaskDefinition(w.serviceName, image), td.Some?));
    if td.Some? {
      LogGrows(c1.log, Event(UpdateService(w.serviceName, td, None), c1.Change(w.serviceName, td, None).1));
    }
  }

  /** Up to the listener's restore, PromoteCanary has deleted nothing. */
  lemma PromotionPrepares(w: World)
    ensures var (w1, image) := CanaryImage(w);
            && Deletions(w1.cloud.log) == Deletions(w.cloud.log) && Pending(w1) == Pending(w)
            && (image.Some? ==>
                  var w2 := Update(w1, image.value).0;
                  Deletions(w2.cloud.log) == Deletions(w.cloud.log) && Pending(w2) == Pending(w))
  {
    ImageIsQuiet(w);
    var (w1, image) := CanaryImage(w);
    if image.Some? {
      UpdateIsQuiet(w1, image.value);
    }
  }

  lemma PromoteCanaryBalances(w: World)
    ensures Ledger(PromoteCanary(w).0) == Ledger(w)
  {
    PromotionPrepares(w);
    var (w1, image) := CanaryImage(w);
    if image.Some? {
      var w2 := Update(w1, image.value).0;
      RestoreIsQuiet(w2);
      TeardownBalances(RestoreListener(w2).0);
    }
  }

  /** PromoteCanary deletes nothing before its listener change has succeeded: either it made
      no deletion at all, or the log shows, before the first one, the successful change to
      stable alone. */
  lemma PromoteDeletesOnlyAfterRestore(w: World)
    ensures var log := PromoteCanary(w).0.cloud.log;
            Deletions(log) == Deletions(w.cloud.log)
            || exists cut :: |w.cloud.log| < cut <= |log|
                 && log[cut - 1] == Event(ModifyListener([Forward(w.stableTG, 1)]), true)
                 && Deletions(log[..cut]) == Deletions(w.cloud.log)
  {
    PromotionPrepares(w);
    var log := PromoteCanary(w).0.cloud.log;
    var (w1, image) := CanaryImage(w);
    if w.canaryService != "" && image.Some? {
      var (w2, updated) := Update(w1, image.value);
      var (w3, restored) := RestoreListener(w2);
      RestoreIsQuiet(w2);
      if updated && restored {
        TeardownExtendsLog(w3);
        assert log[..|w3.cloud.log|] == w3.cloud.log;
        assert log[|w3.cloud.log| - 1] == w3.cloud.log[|w3.cloud.log| - 1];
      }
    }
  }

  lemma TeardownExtendsLog(w: World)
    ensures w.cloud.log <= DestroyCanaryResources(w).0.cloud.log
  {
  }

  lemma TeardownOnlyClears(w: World)
    ensures |Pending(DestroyCanaryResources(w).0)| <= |Pending(w)|
  {
  }

  lemma PromotionOnlyClears(w: World)
    ensures |Pending(PromoteCanary(w).0)| <= |Pending(w)|
  {
    PromotionPrepares(w);
    var (w1, image) := CanaryImage(w);
    if image.Some? {
      var w2 := Update(w1, image.value).0;
      RestoreIsQuiet(w2);
      TeardownOnlyClears(RestoreListener(w2).0);
    }
  }

  lemma DestructionOnlyClears(w: World)
    ensures |Pending(DestroyCanary(w).0)| <= |Pending(w)|
  {
    RestoreIsQuiet(w);
    TeardownOnlyClears(if w.stableTG != "" && w.hasListener then RestoreListener(w).0 else w);
  }

  lemma AttemptOnlyClears(w: World, op: Op)
    requires op.OpDestroyCanary? || op.OpPromoteCanary?
    ensures |Pending(Apply(w, op).0)| <= |Pending(w)|
  {
    if op.OpDestroyCanary? { DestructionOnlyClears(w); } else { PromotionOnlyClears(w); }
  }

  lemma LedgerPrefix(done: seq<Call>, owed: seq<Call>, done': seq<Call>, owed': seq<Call>)
    requires done + owed == done' + owed' && |owed'| <= |owed|
    ensures done <= done'
  {
    assert (done + owed)[..|done|] == done;
    assert (done' + owed')[..|done|] == done'[..|done|];
  }

  /** Teardown can be resumed. Over any number of attempts to end the canary, by promotion
      or destruction and whichever calls fail, the deletions made and the deletions still
      owed always add up to the same list: none that succeeded is ever repeated, none is
      dropped, and the number owed never rises. */
  lemma {:induction false} TeardownResumes(w: World, ops: seq<Op>)
    requires forall k :: 0 <= k < |ops| ==> ops[k].OpDestroyCanary? || ops[k].OpPromoteCanary?
    ensures Ledger(Run(w, ops)) == Ledger(w)
    ensures Deletions(w.cloud.log) <= Deletions(Run(w, ops).cloud.log)
    ensures |Pending(Run(w, ops))| <= |Pending(w)|
  {
    if ops != [] {
      var n := |ops| - 1;
      TeardownResumes(w, ops[..n]);
      var w1 := Run(w, ops[..n]);
      AttemptBalances(w1, ops[n]);
      AttemptOnlyClears(w1, ops[n]);
    }
    LedgerPrefix(Deletions(w.cloud.log), Pending(w), Deletions(Run(w, ops).cloud.log), Pending(Run(w, ops)));
  }

  lemma AttemptBalances(w: World, op: Op)
    requires op.OpDestroyCanary? || op.OpPromoteCanary?
    ensures Ledger(Apply(w, op).0) == Ledger(w)
  {
    if op.OpDestroyCanary? { DestroyCanaryBalances(w); } else { PromoteCanaryBalances(w); }
  }

  /** And it comes to an end: when the calls of one attempt go through and what is owed is
      there to delete, nothing is owed afterwards. */
  lemma TeardownFinishes(w: World)
    requires forall n :: n >= |w.cloud.log| ==> w.cloud.fate(n).ok
    requires w.canaryService != "" ==> w.canaryService in w.cloud.services
    requires w.canaryTG != "" ==> w.canaryTG in w.cloud.groups
    ensures DestroyCanary(w).1 && Pending(DestroyCanary(w).0) == []
  {
    DestroyCanaryBalances(w);
  }

  ghost predicate FieldsOrdered(w: World) { w.canaryService != "" ==> w.canaryTG != "" }

  lemma TeardownOrdered(w: World)
    requires FieldsOrdered(w)
    ensures FieldsOrdered(DestroyCanaryResources(w).0)
  {
  }

  lemma ApplyOrdered(w: World, op: Op)
    requires FieldsOrdered(w)
    ensures FieldsOrdered(Apply(w, op).0)
  {
    match op
    case OpDestroyCanary =>
      TeardownOrdered(if w.stableTG != "" && w.hasListener then RestoreListener(w).0 else w);
    case OpPromoteCanary =>
      var (w1, image) := CanaryImage(w);
      if image.Some? {
        TeardownOrdered(RestoreListener(Update(w1, image.value).0).0);
      }
    case _ =>
  }

  /** On every run of any operations whatever, the service name is never set without the
      group's ARN, so a teardown always finds both. */
  lemma {:induction false} CanaryFieldsOrdered(w: World, ops: seq<Op>)
    requires FieldsOrdered(w)
    ensures FieldsOrdered(Run(w, ops))
  {
    if ops != [] {
      CanaryFieldsOrdered(w, ops[..|ops| - 1]);
      ApplyOrdered(Run(w, ops[..|ops| - 1]), ops[|ops| - 1]);
    }
  }
}
