/**
The calls an operation makes, as a list that is fixed by the world it starts in. An
operation makes them in order and stops at the first one that has to succeed and does not.
*/
module DeployScripts {
  import opened Wrappers
  import opened EcsCloud
  import opened Deploy
  import opened DeploySafety
  import opened DeployCycles
  import opened DeployCanary
  import opened DeployReach
  import Config

  /** A call that has to succeed, or one whose failure is ignored. */
  datatype Step = Must(call: Call) | May(call: Call)

  /** The cloud after one call, and whether it succeeded with an answer. */
  function Make(c: Cloud, call: Call): (Cloud, bool) {
    match call
    case RegisterTaskDefinition(family, image) => var (c', r) := c.Register(family, image); (c', r.Some?)
    case CreateTargetGroup(name) => var (c', r) := c.NewGroup(name); (c', r.Some?)
    case CreateService(name, definition, count, group) => c.NewService(name, definition, count, group)
    case DescribeServices(name) => var (c', r) := c.Describe(name); (c', r.Some?)
    case DescribeTaskDefinition(taskDef) => var (c', r) := c.DescribeImage(taskDef); (c', r.Some?)
    case UpdateService(name, change, desired) => c.Change(name, change, desired)
    case DeleteService(name) => c.DropService(name)
    case DeleteTargetGroup(arn) => c.DropGroup(arn)
    case ModifyListener(forwards) => c.Route(forwards)
  }

  /** Making a script's calls in order, up to the first that has to succeed and does not. */
  function Perform(c: Cloud, script: seq<Step>): (Cloud, bool)
    decreases |script|
  {
    if script == [] then (c, true)
    else
      var (c1, ok) := Make(c, script[0].call);
      if script[0].Must? && !ok then (c1, false) else Perform(c1, script[1..])
  }

  /* ----- the scripts ----- */

  function UpdateScript(w: World, image: string): seq<Step> {
    [Must(RegisterTaskDefinition(w.serviceName, image)), Must(UpdateService(w.serviceName, Some(|w.cloud.images|), None))]
  }

  /** The new service is the new revision's, runs once, and is in the group just answered. */
  function CreateScript(w: World, name: string, image: string): seq<Step> {
    [Must(RegisterTaskDefinition(name, image)), Must(CreateTargetGroup(name + "-tg")),
     Must(CreateService(name, |w.cloud.images|, 1, w.cloud.fate(|w.cloud.log| + 1).arn))]
  }

  function RouteScript(forwards: seq<Forward>): seq<Step> { [Must(ModifyListener(forwards))] }

  function DrainScript(name: string): seq<Step> { [May(UpdateService(name, None, Some(0))), Must(DeleteService(name))] }

  function GroupScript(arn: string): seq<Step> { if arn == "" then [] else [Must(DeleteTargetGroup(arn))] }

  function TeardownScript(w: World): seq<Step> {
    (if w.canaryService == "" then [] else DrainScript(w.canaryService)) + GroupScript(w.canaryTG)
  }

  function CanaryDefinition(w: World): nat {
    if w.canaryService in w.cloud.services then w.cloud.services[w.canaryService].taskDef else 0
  }

  /** The image the canary runs. */
  function CanaryRuns(w: World): string {
    if CanaryDefinition(w) < |w.cloud.images| then w.cloud.images[CanaryDefinition(w)] else ""
  }

  function LookupScript(w: World): seq<Step> {
    [Must(DescribeServices(w.canaryService)), Must(DescribeTaskDefinition(CanaryDefinition(w)))]
  }

  function Script(w: World, op: Op): seq<Step> {
    match op
    case OpUpdate(image) => UpdateScript(w, image)
    case OpCreateGreen(image) => CreateScript(w, w.serviceName + "-green", image)
    case OpSwitchTraffic => RouteScript([Forward(w.greenTG, 1)])
    case OpDestroyBlue => DrainScript(w.serviceName) + GroupScript(w.stableTG)
    case OpCreateCanary(image) => CreateScript(w, w.serviceName + "-canary", image)
    case OpRoutePercent(percent) =>
      RouteScript([Forward(w.canaryTG, Config.ToInt32(percent)), Forward(w.stableTG, Config.ToInt32(100 - percent))])
    case OpPromoteCanary =>
      LookupScript(w) + (UpdateScript(w, CanaryRuns(w)) + (RouteScript([Forward(w.stableTG, 1)]) + TeardownScript(w)))
    case OpDestroyCanary =>
      (if (w.canaryTG != "" || w.canaryService != "") && w.stableTG != "" && w.hasListener
       then [May(ModifyListener([Forward(w.stableTG, 1)]))] else [])
      + TeardownScript(w)
  }

  /** Operations on a green or canary that the driver does not remember. */
  predicate Refused(w: World, op: Op) {
    match op
    case OpSwitchTraffic => w.greenTG == ""
    case OpRoutePercent(_) => w.canaryTG == ""
    case OpPromoteCanary => w.canaryService == ""
    case _ => false
  }

  /* ----- operations perform their scripts ----- */

  lemma {:induction false} PerformBoth(c: Cloud, xs: seq<Step>, ys: seq<Step>)
    ensures Perform(c, xs + ys) == if Perform(c, xs).1 then Perform(Perform(c, xs).0, ys) else Perform(c, xs)
    decreases |xs|
  {
    if xs == [] {
      assert xs + ys == ys;
    } else {
      assert (xs + ys)[0] == xs[0] && (xs + ys)[1..] == xs[1..] + ys;
      PerformBoth(Make(c, xs[0].call).0, xs[1..], ys);
    }
  }

  lemma PerformOne(c: Cloud, step: Step)
    ensures Perform(c, [step]) == (Make(c, step.call).0, step.May? || Make(c, step.call).1)
  {
    assert [step][1..] == [];
  }

  lemma PerformTwo(c: Cloud, one: Step, two: Step)
    ensures Perform(c, [one, two]) ==
              var (c1, ok) := Make(c, one.call);
              if one.Must? && !ok then (c1, false) else Perform(c1, [two])
  {
    assert [one, two][1..] == [two];
  }

  lemma UpdatePerforms(w: World, image: string)
    ensures var (w', ok) := Update(w, image);
            (w'.cloud, ok) == Perform(w.cloud, UpdateScript(w, image)) && w' == w.(cloud := w'.cloud)
  {
    var script := UpdateScript(w, image);
    PerformTwo(w.cloud, script[0], script[1]);
    PerformOne(Make(w.cloud, script[0].call).0, script[1]);
  }

  lemma CreatePerforms(w: World, name: string, image: string)
    ensures var (c1, td) := w.cloud.Register(name, image);
            Perform(w.cloud, CreateScript(w, name, image)) ==
              if td.None? then (c1, false)
              else
                var (c2, tg) := c1.NewGroup(name + "-tg");
                if tg.None? then (c2, false) else c2.NewService(name, td.value, 1, tg.value)
  {
    var script := CreateScript(w, name, image);
    var (c1, td) := w.cloud.Register(name, image);
    assert script[1..] == [script[1], script[2]];
    PerformTwo(c1, script[1], script[2]);
    PerformOne(c1.NewGroup(name + "-tg").0, script[2]);
  }

  lemma DrainPerforms(c: Cloud, name: string)
    ensures Perform(c, DrainScript(name)) == c.Change(name, None, Some(0)).0.DropService(name)
  {
    var script := DrainScript(name);
    PerformTwo(c, script[0], script[1]);
    PerformOne(Make(c, script[0].call).0, script[1]);
  }

  lemma GroupPerforms(c: Cloud, arn: string)
    ensures Perform(c, GroupScript(arn)) == if arn == "" then (c, true) else c.DropGroup(arn)
  {
    if arn != "" { PerformOne(c, Must(DeleteTargetGroup(arn))); }
  }

  lemma TeardownPerforms(w: World)
    ensures var (w', ok) := DestroyCanaryResources(w); (w'.cloud, ok) == Perform(w.cloud, TeardownScript(w))
  {
    var drain := if w.canaryService == "" then [] else DrainScript(w.canaryService);
    PerformBoth(w.cloud, drain, GroupScript(w.canaryTG));
    if w.canaryService != "" { DrainPerforms(w.cloud, w.canaryService); }
    GroupPerforms(Perform(w.cloud, drain).0, w.canaryTG);
  }

  lemma DestroyBluePerforms(w: World)
    ensures var (w', ok) := DestroyBlue(w); (w'.cloud, ok) == Perform(w.cloud, Script(w, OpDestroyBlue))
  {
    PerformBoth(w.cloud, DrainScript(w.serviceName), GroupScript(w.stableTG));
    DrainPerforms(w.cloud, w.serviceName);
    GroupPerforms(Perform(w.cloud, DrainScript(w.serviceName)).0, w.stableTG);
  }

  lemma ImagePerforms(w: World, name: string, definition: nat)
    requires name in w.cloud.services ==> definition == w.cloud.services[name].taskDef
    ensures var (w', image) := ImageOf(w, name);
            (w'.cloud, image.Some?) == Perform(w.cloud, [Must(DescribeServices(name)), Must(DescribeTaskDefinition(definition))])
  {
    var (one, two) := (Must(DescribeServices(name)), Must(DescribeTaskDefinition(definition)));
    PerformTwo(w.cloud, one, two);
    PerformOne(Make(w.cloud, one.call).0, two);
  }

  /** CurrentImage makes two reads of the stable service. */
  lemma CurrentImagePerforms(w: World)
    requires w.serviceName in w.cloud.services
    ensures var (w', image) := CurrentImage(w);
            (w'.cloud, image.Some?) ==
              Perform(w.cloud, [Must(DescribeServices(w.serviceName)),
                                Must(DescribeTaskDefinition(w.cloud.services[w.serviceName].taskDef))])
  {
    ImagePerforms(w, w.serviceName, w.cloud.services[w.serviceName].taskDef);
  }

  lemma LookupPerforms(w: World)
    ensures var (w', image) := CanaryImage(w);
            && (w'.cloud, image.Some?) == Perform(w.cloud, LookupScript(w)) && w' == w.(cloud := w'.cloud)
            && w'.cloud == w.cloud.(log := w'.cloud.log)
            && (image.Some? ==> image.value == CanaryRuns(w) && w.canaryService in w.cloud.services)
  {
    ImagePerforms(w, w.canaryService, CanaryDefinition(w));
  }

  lemma RestorePerforms(w: World)
    ensures var (w', ok) := RestoreListener(w);
            (w'.cloud, ok) == Perform(w.cloud, RouteScript([Forward(w.stableTG, 1)])) && w' == w.(cloud := w'.cloud)
  {
    PerformOne(w.cloud, Must(ModifyListener([Forward(w.stableTG, 1)])));
  }

  /** Restoring and tearing down, as promotion ends. */
  lemma EndPerforms(w: World)
    ensures var (w3, restored) := RestoreListener(w);
            var end := if restored then DestroyCanaryResources(w3) else (w3, false);
            (end.0.cloud, end.1) == Perform(w.cloud, RouteScript([Forward(w.stableTG, 1)]) + TeardownScript(w))
  {
    PerformBoth(w.cloud, RouteScript([Forward(w.stableTG, 1)]), TeardownScript(w));
    RestorePerforms(w);
    TeardownPerforms(RestoreListener(w).0);
  }

  lemma PromoteCanaryPerforms(w: World)
    requires w.canaryService != ""
    ensures var (w', ok) := PromoteCanary(w); (w'.cloud, ok) == Perform(w.cloud, Script(w, OpPromoteCanary))
  {
    var end := RouteScript([Forward(w.stableTG, 1)]) + TeardownScript(w);
    var (w1, image) := CanaryImage(w);
    LookupPerforms(w);
    PerformBoth(w.cloud, LookupScript(w), UpdateScript(w, CanaryRuns(w)) + end);
    if image.Some? {
      var (w2, updated) := Update(w1, image.value);
      UpdatePerforms(w1, image.value);
      PerformBoth(w1.cloud, UpdateScript(w, CanaryRuns(w)), end);
      if updated { EndPerforms(w2); }
    }
  }

  lemma DestroyCanaryPerforms(w: World)
    ensures var (w', ok) := DestroyCanary(w); (w'.cloud, ok) == Perform(w.cloud, Script(w, OpDestroyCanary))
  {
    var restore := if (w.canaryTG != "" || w.canaryService != "") && w.stableTG != "" && w.hasListener
                   then [May(ModifyListener([Forward(w.stableTG, 1)]))] else [];
    PerformBoth(w.cloud, restore, TeardownScript(w));
    if restore != [] { PerformOne(w.cloud, restore[0]); }
    TeardownPerforms(w);
    TeardownPerforms(RestoreListener(w).0);
  }

  /** Every operation that is not refused makes the calls of its script, with their arguments
      and in their order, stops at the first failure that counts, and succeeds exactly if
      there is none. A refused one makes no call. */
  lemma OperationPerformsScript(w: World, op: Op)
    ensures var (w', ok) := Apply(w, op);
            if Refused(w, op) then (w', ok) == (w, false)
            else (w'.cloud, ok) == Perform(w.cloud, Script(w, op))
  {
    match op
    case OpUpdate(image) => UpdatePerforms(w, image);
    case OpCreateGreen(image) => CreatePerforms(w, w.serviceName + "-green", image);
    case OpSwitchTraffic => PerformOne(w.cloud, Must(ModifyListener([Forward(w.greenTG, 1)])));
    case OpDestroyBlue => DestroyBluePerforms(w);
    case OpCreateCanary(image) => CreatePerforms(w, w.serviceName + "-canary", image);
    case OpRoutePercent(percent) => PerformOne(w.cloud, Must(ModifyListener(CanarySplit(w, percent))));
    case OpPromoteCanary => if w.canaryService != "" { PromoteCanaryPerforms(w); }
    case OpDestroyCanary => DestroyCanaryPerforms(w);
  }

  /* ----- what the fields remember ----- */

  function ServiceMade(w: World, op: Op): string {
    w.serviceName + if op.OpCreateGreen? then "-green" else "-canary"
  }

  /** A creation's group is remembered as soon as it is made, its service once all is done;
      only a finished DestroyBlue moves green to stable; and nothing else touches these. */
  lemma FieldsFollowCalls(w: World, op: Op)
    ensures var (w', ok) := Apply(w, op);
            var grouped := (op.OpCreateGreen? || op.OpCreateCanary?) && Perform(w.cloud, Script(w, op)[..2]).1;
            var arn := w.cloud.fate(|w.cloud.log| + 1).arn;
            var promoted := op.OpDestroyBlue? && ok; var ended := op.OpPromoteCanary? || op.OpDestroyCanary?;
            && w'.hasListener == w.hasListener
            && (w'.serviceName, w'.stableTG) == (if promoted then (w.greenService, w.greenTG) else (w.serviceName, w.stableTG))
            && w'.greenTG == (if promoted then "" else if op.OpCreateGreen? && grouped then arn else w.greenTG)
            && w'.greenService == (if promoted then "" else if op.OpCreateGreen? && ok then ServiceMade(w, op) else w.greenService)
            && (!ended ==>
                  && w'.canaryTG == (if op.OpCreateCanary? && grouped then arn else w.canaryTG)
                  && w'.canaryService == (if op.OpCreateCanary? && ok then ServiceMade(w, op) else w.canaryService))
  {
    match op
    case OpCreateGreen(image) => GroupedIff(w, w.serviceName + "-green", image);
    case OpCreateCanary(image) => GroupedIff(w, w.serviceName + "-canary", image);
    case OpPromoteCanary => PromotionKeepsGreen(w);
    case OpDestroyCanary => TeardownKeepsGreen(w); TeardownKeepsGreen(RestoreListener(w).0);
    case _ =>
  }

  lemma GroupedIff(w: World, name: string, image: string)
    ensures var (c1, td) := w.cloud.Register(name, image);
            Perform(w.cloud, CreateScript(w, name, image)[..2]).1 <==> td.Some? && c1.NewGroup(name + "-tg").1.Some?
  {
    var script := CreateScript(w, name, image);
    assert script[..2] == [script[0], script[1]];
    PerformTwo(w.cloud, script[0], script[1]);
    PerformOne(Make(w.cloud, script[0].call).0, script[1]);
  }

  ghost predicate SameButCanary(w: World, w': World) {
    w' == w.(canaryService := w'.canaryService, canaryTG := w'.canaryTG, cloud := w'.cloud)
  }

  lemma TeardownKeepsGreen(w: World)
    ensures SameButCanary(w, DestroyCanaryResources(w).0)
  {
  }

  lemma PromotionKeepsGreen(w: World)
    ensures SameButCanary(w, PromoteCanary(w).0)
  {
    var (w1, image) := CanaryImage(w);
    LookupPerforms(w);
    if image.Some? {
      UpdatePerforms(w1, image.value);
      TeardownKeepsGreen(RestoreListener(Update(w1, image.value).0).0);
    }
  }

  /* ----- when an operation whose calls are answered succeeds ----- */

  /** From now on every call goes through and is answered. */
  ghost predicate Answers(c: Cloud) { forall n: nat | n >= |c.log| :: c.fate(n).ok && !c.fate(n).empty }

  /** A creation asks for a service name that is free, and the group's ARN is a new one or
      that of the group with the name. */
  predicate Creatable(w: World, name: string) {
    var arn := w.cloud.fate(|w.cloud.log| + 1).arn;
    name !in w.cloud.services && arn != "" && (arn !in w.cloud.groups || w.cloud.groups[arn] == name + "-tg")
  }

  /** What an operation is about is there. */
  predicate Possible(w: World, op: Op) {
    match op
    case OpUpdate(_) => w.serviceName in w.cloud.services
    case OpCreateGreen(_) => Creatable(w, w.serviceName + "-green")
    case OpSwitchTraffic => w.greenTG != ""
    case OpDestroyBlue => w.serviceName in w.cloud.services && (w.stableTG != "" ==> w.stableTG in w.cloud.groups)
    case OpCreateCanary(_) => Creatable(w, w.serviceName + "-canary")
    case OpRoutePercent(_) => w.canaryTG != ""
    case OpPromoteCanary =>
      && w.canaryService in w.cloud.services && w.cloud.services[w.canaryService].taskDef < |w.cloud.images|
      && w.serviceName in w.cloud.services && CanaryThere(w) && w.canaryService != ""
    case OpDestroyCanary => CanaryThere(w)
  }

  predicate CanaryThere(w: World) {
    && (w.canaryService != "" ==> w.canaryService in w.cloud.services)
    && (w.canaryTG != "" ==> w.canaryTG in w.cloud.groups)
  }

  lemma TeardownSucceedsIff(w: World)
    requires Answers(w.cloud)
    ensures DestroyCanaryResources(w).1 <==> CanaryThere(w)
  {
  }

  lemma PromotionSucceedsIff(w: World)
    requires Answers(w.cloud)
    ensures PromoteCanary(w).1 <==> Possible(w, OpPromoteCanary)
  {
    var (w1, image) := CanaryImage(w);
    LookupPerforms(w);
    assert image.Some? <==> w.canaryService in w.cloud.services && w.cloud.services[w.canaryService].taskDef < |w.cloud.images|;
    if image.Some? {
      var (w2, updated) := Update(w1, image.value);
      assert updated <==> w.serviceName in w.cloud.services;
      assert w2.cloud.services.Keys == w.cloud.services.Keys && w2.cloud.groups == w.cloud.groups;
      assert w2 == w.(cloud := w2.cloud);
      TeardownSucceedsIff(RestoreListener(w2).0);
    }
  }

  /** Nothing but a missing answer or a missing resource makes an operation fail. */
  lemma SucceedsIff(w: World, op: Op)
    requires Answers(w.cloud)
    ensures Apply(w, op).1 <==> Possible(w, op)
  {
    match op
    case OpPromoteCanary => PromotionSucceedsIff(w);
    case OpDestroyCanary => TeardownSucceedsIff(w); TeardownSucceedsIff(RestoreListener(w).0);
    case _ =>
  }

  /* ----- promotion ----- */

  lemma SamePending(done: seq<Call>, w: World, done': seq<Call>, w': World)
    requires done + Pending(w) == done' + Pending(w') && done == done'
    ensures (w'.canaryService, w'.canaryTG) == (w.canaryService, w.canaryTG)
  {
    assert Pending(w) == (done + Pending(w))[|done|..] && Pending(w') == (done' + Pending(w'))[|done|..];
    assert w.canaryService != "" ==> Pending(w)[0] == DeleteService(w.canaryService);
    assert w'.canaryService != "" ==> Pending(w')[0] == DeleteService(w'.canaryService);
    assert w.canaryTG != "" ==> Pending(w)[|Pending(w)| - 1] == DeleteTargetGroup(w.canaryTG);
    assert w'.canaryTG != "" ==> Pending(w')[|Pending(w')| - 1] == DeleteTargetGroup(w'.canaryTG);
  }

  /** Deleting the canary's service touches no other, and forgets it only if it is gone. */
  lemma ServiceTeardownIs(w: World)
    ensures var (w', ok) := DestroyCanaryService(w); var name := w.canaryService;
            && w' == w.(cloud := w'.cloud, canaryService := w'.canaryService)
            && w'.cloud.groups == w.cloud.groups && w'.cloud.listener == w.cloud.listener && w'.cloud.images == w.cloud.images
            && w'.cloud.services - {name} == w.cloud.services - {name}
            && (w'.canaryService == name ==> w'.cloud.services.Keys == w.cloud.services.Keys)
            && (ok <==> w'.canaryService == "") && (!ok ==> w'.canaryService == name)
  {
  }

  /** A teardown that made no deletion changed nothing it remembers, and no service or group. */
  lemma TeardownWithoutDeletion(w: World)
    requires Deletions(DestroyCanaryResources(w).0.cloud.log) == Deletions(w.cloud.log)
    ensures var w' := DestroyCanaryResources(w).0;
            && (w'.canaryService, w'.canaryTG) == (w.canaryService, w.canaryTG)
            && w'.cloud.services.Keys == w.cloud.services.Keys && w'.cloud.groups == w.cloud.groups
  {
    var w' := DestroyCanaryResources(w).0;
    TeardownBalances(w);
    SamePending(Deletions(w.cloud.log), w, Deletions(w'.cloud.log), w');
    ServiceTeardownIs(w);
  }

  lemma TeardownKeepsImage(w: World)
    requires w.canaryService != w.serviceName
    ensures StableImage(DestroyCanaryResources(w).0) == StableImage(w)
    ensures DestroyCanaryResources(w).0.cloud.listener == w.cloud.listener
  {
    ServiceTeardownIs(w);
  }

  lemma PromotionEndKeepsImage(w: World)
    requires w.canaryService != w.serviceName
    ensures var (w3, restored) := RestoreListener(w); var w' := if restored then DestroyCanaryResources(w3).0 else w3;
            && StableImage(w') == StableImage(w)
            && (Deletions(w'.cloud.log) == Deletions(w.cloud.log) ==>
                  && (w'.canaryService, w'.canaryTG) == (w.canaryService, w.canaryTG)
                  && w'.cloud.services.Keys == w.cloud.services.Keys && w'.cloud.groups == w.cloud.groups)
            && (!restored ==> w'.cloud.listener == w.cloud.listener && Deletions(w'.cloud.log) == Deletions(w.cloud.log))
  {
    RestoreIsQuiet(w);
    var (w3, restored) := RestoreListener(w);
    if restored {
      TeardownKeepsImage(w3);
      if Deletions(DestroyCanaryResources(w3).0.cloud.log) == Deletions(w3.cloud.log) { TeardownWithoutDeletion(w3); }
    }
  }

  /** Whatever promotion got to: if it moved the listener or deleted anything, the stable
      service runs the canary's image; otherwise the canary is still remembered and there. */
  lemma PromotionMovesImageFirst(w: World)
    requires Tidy(w)
    ensures var w' := PromoteCanary(w).0;
            if Deletions(w'.cloud.log) != Deletions(w.cloud.log) || w'.cloud.listener != w.cloud.listener
            then w.canaryService in w.cloud.services && StableImage(w') == Some(CanaryRuns(w))
            else (w'.canaryService, w'.canaryTG) == (w.canaryService, w.canaryTG)
                 && w'.cloud.services.Keys == w.cloud.services.Keys && w'.cloud.groups == w.cloud.groups
  {
    if w.canaryService != "" { PromotionImage(w); }
  }

  lemma PromotionImage(w: World)
    requires w.canaryService != "" && w.canaryService != w.serviceName
    ensures var w' := PromoteCanary(w).0;
            if Deletions(w'.cloud.log) != Deletions(w.cloud.log) || w'.cloud.listener != w.cloud.listener
            then w.canaryService in w.cloud.services && StableImage(w') == Some(CanaryRuns(w))
            else (w'.canaryService, w'.canaryTG) == (w.canaryService, w.canaryTG)
                 && w'.cloud.services.Keys == w.cloud.services.Keys && w'.cloud.groups == w.cloud.groups
  {
    PromotionPrepares(w);
    LookupPerforms(w);
    var (w1, image) := CanaryImage(w);
    if image.Some? {
      var (w2, updated) := Update(w1, image.value);
      UpdateRuns(w1, image.value);
      assert w2.cloud.services.Keys == w.cloud.services.Keys;
      if updated { PromotionEndKeepsImage(w2); }
    }
  }

  /** A successful update makes the stable service run the image and changes nothing else
      about any service; one that fails changes no service. */
  lemma UpdateRuns(w: World, image: string)
    ensures var (w', ok) := Update(w, image); var name := w.serviceName;
            && w' == w.(cloud := w'.cloud) && w.cloud.images <= w'.cloud.images
            && w'.cloud.groups == w.cloud.groups && w'.cloud.listener == w.cloud.listener
            && if ok then
                 && name in w.cloud.services && StableImage(w') == Some(image)
                 && w'.cloud.services == w.cloud.services[name := w.cloud.services[name].(taskDef := w'.cloud.services[name].taskDef)]
               else w'.cloud.services == w.cloud.services
  {
  }

  /* ----- on every disciplined run ----- */

  /** Every service runs a revision that was registered. */
  ghost predicate Revised(w: World) {
    forall name | name in w.cloud.services :: w.cloud.services[name].taskDef < |w.cloud.images|
  }

  lemma UpdateRevised(w: World, image: string)
    requires Revised(w)
    ensures Revised(Update(w, image).0)
  {
  }

  lemma TeardownRevised(w: World)
    requires Revised(w)
    ensures Revised(DestroyCanaryResources(w).0)
  {
  }

  lemma CreateGreenRevised(w: World, image: string)
    requires Revised(w)
    ensures Revised(CreateGreen(w, image).0)
  {
  }

  lemma CreateCanaryRevised(w: World, image: string)
    requires Revised(w)
    ensures Revised(CreateCanary(w, image).0)
  {
  }

  lemma DestroyBlueRevised(w: World)
    requires Revised(w)
    ensures Revised(DestroyBlue(w).0)
  {
  }

  lemma PromotionRevised(w: World)
    requires Revised(w)
    ensures Revised(PromoteCanary(w).0)
  {
    var (w1, image) := CanaryImage(w);
    LookupPerforms(w);
    if image.Some? {
      UpdateRevised(w1, image.value);
      TeardownRevised(RestoreListener(Update(w1, image.value).0).0);
    }
  }

  lemma ApplyRevised(w: World, op: Op)
    requires Revised(w)
    ensures Revised(Apply(w, op).0)
  {
    match op
    case OpUpdate(image) => UpdateRevised(w, image);
    case OpCreateGreen(image) => CreateGreenRevised(w, image);
    case OpCreateCanary(image) => CreateCanaryRevised(w, image);
    case OpDestroyBlue => DestroyBlueRevised(w);
    case OpDestroyCanary => TeardownRevised(w); TeardownRevised(RestoreListener(w).0);
    case OpPromoteCanary => PromotionRevised(w);
    case _ =>
  }

  lemma {:induction false} RunRevised(w: World, ops: seq<Op>)
    requires Revised(w)
    ensures Revised(Run(w, ops))
  {
    if ops != [] {
      RunRevised(w, ops[..|ops| - 1]);
      ApplyRevised(Run(w, ops[..|ops| - 1]), ops[|ops| - 1]);
    }
  }

  /** On every disciplined run, if the remaining calls go through and are answered, promotion
      succeeds exactly when a canary service is remembered and the stable service exists. It
      may not: a DestroyBlue that failed at the group has deleted it. */
  lemma PromotionCompletesIff(w: World, ops: seq<Op>)
    requires Tidy(w) && Revised(w) && Disciplined(w, ops) && Answers(Run(w, ops).cloud)
    ensures var w' := Run(w, ops);
            PromoteCanary(w').1 <==> w'.canaryService != "" && w'.serviceName in w'.cloud.services
  {
    RunTidy(w, ops);
    RunRevised(w, ops);
    PromotionSucceedsIff(Run(w, ops));
  }
}
