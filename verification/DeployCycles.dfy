/** Blue/green cycles: where any number of them ends up. */
module DeployCycles {
  import opened Wrappers
  import opened EcsCloud
  import opened Deploy

  /** The image the stable service runs. */
  function StableImage(w: World): Option<string> {
    if w.serviceName in w.cloud.services && w.cloud.services[w.serviceName].taskDef < |w.cloud.images|
    then Some(w.cloud.images[w.cloud.services[w.serviceName].taskDef]) else None
  }

  /** CurrentImage reports it whenever it reports anything, which it does if its two calls
      are answered, and leaves all but the call log as it was. */
  lemma CurrentImageIsStable(w: World)
    ensures var (w', image) := CurrentImage(w); var n := |w.cloud.log|;
            && (image.Some? ==> image == StableImage(w))
            && (w.cloud.fate(n).ok && w.cloud.fate(n + 1).ok && !w.cloud.fate(n + 1).empty ==> image == StableImage(w))
            && w' == w.(cloud := w.cloud.(log := w'.cloud.log)) && w.cloud.log <= w'.cloud.log
  {
  }

  function Cycle(w: World, image: string): (World, bool) {
    var (w1, created) := CreateGreen(w, image);
    if !created then (w1, false)
    else
      var (w2, switched) := SwitchTraffic(w1);
      if !switched then (w2, false) else DestroyBlue(w2)
  }

  function Cycles(w: World, images: seq<string>): (World, bool) {
    if images == [] then (w, true)
    else
      var (w1, ok) := Cycles(w, images[..|images| - 1]);
      if !ok then (w1, false) else Cycle(w1, images[|images| - 1])
  }

  function GreenName(base: string, n: nat): (name: string)
    ensures |name| == |base| + 6 * n
  {
    if n == 0 then base else GreenName(base, n - 1) + "-green"
  }

  /** The stable group exists, unless none is configured; no group has an empty ARN. */
  ghost predicate GroupsInOrder(w: World) {
    "" !in w.cloud.groups && (w.stableTG == "" || w.stableTG in w.cloud.groups)
  }

  /** One successful cycle swaps the service and its group for new ones and leaves every
      other service and group alone. */
  ghost predicate Swapped(w: World, w': World, image: string) {
    && w'.serviceName == w.serviceName + "-green"
    && w.serviceName in w.cloud.services && w'.serviceName !in w.cloud.services
    && GroupsInOrder(w) && w'.stableTG !in w.cloud.groups && w'.stableTG != ""
    && w'.cloud.services == (w.cloud.services - {w.serviceName})
                            [w'.serviceName := Service(|w.cloud.images|, 1, w'.stableTG)]
    && w'.cloud.groups == (w.cloud.groups - {w.stableTG})[w'.stableTG := w.serviceName + "-green" + "-tg"]
    && w'.cloud.listener == [Forward(w'.stableTG, 1)]
    && w'.cloud.images == w.cloud.images + [image]
    && w'.greenService == "" && w'.greenTG == ""
    && w'.canaryService == w.canaryService && w'.canaryTG == w.canaryTG
  }

  lemma CreateGreenEffect(w: World, image: string)
    requires CreateGreen(w, image).1 && (w.serviceName + "-green" + "-tg") !in w.cloud.groups.Values
    ensures var w' := CreateGreen(w, image).0; var name := w.serviceName + "-green";
            && w' == w.(greenService := name, greenTG := w'.greenTG, cloud := w'.cloud)
            && w'.greenTG != "" && w'.greenTG !in w.cloud.groups && name !in w.cloud.services
            && w'.cloud.services == w.cloud.services[name := Service(|w.cloud.images|, 1, w'.greenTG)]
            && w'.cloud.groups == w.cloud.groups[w'.greenTG := name + "-tg"]
            && w'.cloud.images == w.cloud.images + [image]
            && w'.cloud.listener == w.cloud.listener
  {
    assert forall a :: a in w.cloud.groups ==> w.cloud.groups[a] in w.cloud.groups.Values;
  }

  lemma DestroyBlueSwaps(w: World)
    requires DestroyBlue(w).1 && "" !in w.cloud.groups
    ensures var w' := DestroyBlue(w).0;
            && w' == w.(serviceName := w.greenService, stableTG := w.greenTG, greenService := "", greenTG := "",
                        cloud := w'.cloud)
            && w.serviceName in w.cloud.services && GroupsInOrder(w)
            && w'.cloud.services == w.cloud.services - {w.serviceName}
            && w'.cloud.groups == w.cloud.groups - {w.stableTG}
            && w'.cloud.images == w.cloud.images && w'.cloud.listener == w.cloud.listener
  {
  }

  lemma CycleSwaps(w: World, image: string)
    requires Cycle(w, image).1 && GroupsInOrder(w)
    requires (w.serviceName + "-green" + "-tg") !in w.cloud.groups.Values
    ensures Swapped(w, Cycle(w, image).0, image)
  {
    var w1 := CreateGreen(w, image).0;
    var w2 := SwitchTraffic(w1).0;
    CreateGreenEffect(w, image);
    DestroyBlueSwaps(w2);
    assert |w1.greenService| > |w.serviceName|;
    assert w2.cloud.services - {w.serviceName}
        == (w.cloud.services - {w.serviceName})[w1.greenService := w1.cloud.services[w1.greenService]];
  }

  /** No group but the stable one carries a name the cycles will ask for. */
  ghost predicate GroupNamesFree(w: World, n: nat) {
    forall k :: 1 <= k <= n ==> (GreenName(w.serviceName, k) + "-tg") !in w.cloud.groups.Values
  }

  /** Where a positive number of cycles leaves the driver and the cloud. */
  ghost predicate Cycled(w: World, w': World, n: nat, image: string) {
    && w'.serviceName == GreenName(w.serviceName, n)
    && w'.serviceName in w'.cloud.services && GroupsInOrder(w') && w'.stableTG != ""
    && w'.cloud.services - {w'.serviceName} == w.cloud.services - {w.serviceName}
    && w'.cloud.groups - {w'.stableTG} == w.cloud.groups - {w.stableTG}
    && w'.cloud.groups[w'.stableTG] == w'.serviceName + "-tg"
    && w'.cloud.listener == [Forward(w'.stableTG, 1)]
    && StableImage(w') == Some(image)
    && w'.greenService == "" && w'.greenTG == "" && ActiveService(w') == w'.serviceName
    && w'.canaryService == w.canaryService && w'.canaryTG == w.canaryTG
  }

  lemma FirstCycle(w: World, w': World, image: string)
    requires Swapped(w, w', image)
    ensures Cycled(w, w', 1, image)
  {
    assert GreenName(w.serviceName, 1) == w.serviceName + "-green";
  }

  lemma OneMoreCycle(w: World, w1: World, w': World, n: nat, earlier: string, image: string)
    requires Cycled(w, w1, n, earlier) && Swapped(w1, w', image)
    ensures Cycled(w, w', n + 1, image)
  {
    assert w'.cloud.services - {w'.serviceName} == w1.cloud.services - {w1.serviceName};
    assert w'.cloud.groups - {w'.stableTG} == w1.cloud.groups - {w1.stableTG};
  }

  lemma NextNameFree(w: World, w1: World, n: nat, image: string)
    requires Cycled(w, w1, n, image) && GroupNamesFree(w, n + 1)
    ensures (w1.serviceName + "-green" + "-tg") !in w1.cloud.groups.Values
  {
    var wanted := w1.serviceName + "-green" + "-tg";
    assert wanted == GreenName(w.serviceName, n + 1) + "-tg";
    assert |wanted| > |w1.serviceName + "-tg"|;
    forall a | a in w1.cloud.groups ensures w1.cloud.groups[a] != wanted {
      if a != w1.stableTG {
        assert a in w1.cloud.groups - {w1.stableTG};
        assert (w.cloud.groups - {w.stableTG})[a] == w1.cloud.groups[a];
        assert w.cloud.groups[a] in w.cloud.groups.Values;
      }
    }
  }

  lemma CycleFromStart(w: World, image: string)
    requires GroupsInOrder(w) && GroupNamesFree(w, 1) && Cycle(w, image).1
    ensures Cycled(w, Cycle(w, image).0, 1, image)
  {
    assert GreenName(w.serviceName, 1) == w.serviceName + "-green";
    CycleSwaps(w, image);
    FirstCycle(w, Cycle(w, image).0, image);
  }

  lemma CycleAfter(w: World, w1: World, n: nat, earlier: string, image: string)
    requires Cycled(w, w1, n, earlier) && GroupNamesFree(w, n + 1) && Cycle(w1, image).1
    ensures Cycled(w, Cycle(w1, image).0, n + 1, image)
  {
    NextNameFree(w, w1, n, earlier);
    CycleSwaps(w1, image);
    OneMoreCycle(w, w1, Cycle(w1, image).0, n, earlier, image);
  }

  /** After any number of successful cycles there is one managed service, named by the base
      name and one "-green" a cycle, and one managed group; every other service and group is
      what it was; all the listener's weight is on that group; and the stable image is the
      last one deployed. */
  lemma {:induction false} CyclesEnd(w: World, images: seq<string>)
    requires images != [] && GroupsInOrder(w) && GroupNamesFree(w, |images|)
    ensures Cycles(w, images).1 ==> Cycled(w, Cycles(w, images).0, |images|, images[|images| - 1])
  {
    var n := |images| - 1;
    var (w1, ok) := Cycles(w, images[..n]);
    if ok && Cycle(w1, images[n]).1 {
      if n == 0 {
        CycleFromStart(w, images[0]);
      } else {
        CyclesEnd(w, images[..n]);
        CycleAfter(w, w1, n, images[n - 1], images[n]);
      }
    }
  }

  /** With a single service and at most the stable group to begin with, a single one of each
      is left. */
  lemma CyclesEndWithOne(w: World, images: seq<string>)
    requires images != [] && GroupsInOrder(w) && GroupNamesFree(w, |images|)
    requires w.cloud.services.Keys == {w.serviceName} && w.cloud.groups.Keys <= {w.stableTG}
    ensures var (w', ok) := Cycles(w, images);
            ok ==> w'.cloud.services.Keys == {GreenName(w.serviceName, |images|)} && w'.cloud.groups.Keys == {w'.stableTG}
  {
    if !Cycles(w, images).1 { return; }
    CyclesEnd(w, images);
    var w' := Cycles(w, images).0;
    assert (w'.cloud.services - {w'.serviceName}).Keys == (w.cloud.services - {w.serviceName}).Keys == {};
    assert (w'.cloud.groups - {w'.stableTG}).Keys == (w.cloud.groups - {w.stableTG}).Keys == {};
    assert w'.cloud.services.Keys - {w'.serviceName} == {} && w'.cloud.groups.Keys - {w'.stableTG} == {};
  }

  /* ----- nothing but a failing call stops a cycle ----- */

  /** Every call goes through and every new group gets an ARN nobody has. */
  ghost predicate Lucky(fate: nat -> Fate, used: set<string>) {
    && (forall n :: fate(n).ok && !fate(n).empty && fate(n).arn != "" && fate(n).arn !in used)
    && (forall m, n :: m != n ==> fate(m).arn != fate(n).arn)
  }

  ghost predicate ServiceNamesFree(w: World, n: nat) {
    forall k :: 1 <= k <= n ==> GreenName(w.serviceName, k) !in w.cloud.services
  }

  /** Every group's ARN is one of the originals or was handed out by an earlier call. */
  ghost predicate ArnsAccounted(w: World, used: set<string>) {
    forall a :: a in w.cloud.groups ==> a in used || exists n :: 0 <= n < |w.cloud.log| && w.cloud.fate(n).arn == a
  }

  lemma LuckyGreen(w: World, image: string, used: set<string>)
    requires Lucky(w.cloud.fate, used) && ArnsAccounted(w, used)
    requires (w.serviceName + "-green") !in w.cloud.services
    ensures var (w', ok) := CreateGreen(w, image); var arn := w.cloud.fate(|w.cloud.log| + 1).arn;
            && ok && arn !in w.cloud.groups
            && w'.greenTG == arn && w'.greenService == w.serviceName + "-green"
            && w'.cloud.groups == w.cloud.groups[arn := w.serviceName + "-green" + "-tg"]
            && |w'.cloud.log| == |w.cloud.log| + 3 && w'.cloud.fate == w.cloud.fate
            && w'.cloud.services.Keys == w.cloud.services.Keys + {w.serviceName + "-green"}
            && w'.serviceName == w.serviceName && w'.stableTG == w.stableTG
  {
    var arn := w.cloud.fate(|w.cloud.log| + 1).arn;
    assert arn !in w.cloud.groups;
  }

  lemma LuckyDestroy(w: World, used: set<string>)
    requires Lucky(w.cloud.fate, used) && GroupsInOrder(w) && w.serviceName in w.cloud.services
    ensures var (w', ok) := DestroyBlue(w);
            && ok && w'.cloud.groups == w.cloud.groups - {w.stableTG} && w'.stableTG == w.greenTG
            && |w'.cloud.log| >= |w.cloud.log| && w'.cloud.fate == w.cloud.fate
  {
  }

  lemma LuckyCycleSucceeds(w: World, image: string, used: set<string>)
    requires Lucky(w.cloud.fate, used) && ArnsAccounted(w, used)
    requires w.serviceName in w.cloud.services && (w.serviceName + "-green") !in w.cloud.services
    requires GroupsInOrder(w)
    ensures Cycle(w, image).1
    ensures var w' := Cycle(w, image).0; w'.cloud.fate == w.cloud.fate && ArnsAccounted(w', used) && GroupsInOrder(w')
  {
    var n := |w.cloud.log| + 1;
    LuckyGreen(w, image, used);
    var w1 := CreateGreen(w, image).0;
    var (w2, switched) := SwitchTraffic(w1);
    assert switched && w2 == w1.(cloud := w2.cloud) && w2.cloud.groups == w1.cloud.groups;
    LuckyDestroy(w2, used);
    var w' := Cycle(w, image).0;
    assert w' == DestroyBlue(w2).0;
    forall a | a in w'.cloud.groups
      ensures a in used || exists m :: 0 <= m < |w'.cloud.log| && w'.cloud.fate(m).arn == a
    {
      if a == w1.greenTG { assert w'.cloud.fate(n).arn == a && n < |w'.cloud.log|; }
    }
  }

  /** The growing names never collide: with every call going through, any number of cycles
      succeeds. */
  lemma {:induction false} CyclesNeverCollide(w: World, images: seq<string>, used: set<string>)
    requires Lucky(w.cloud.fate, used) && ArnsAccounted(w, used)
    requires w.serviceName in w.cloud.services && GroupsInOrder(w)
    requires ServiceNamesFree(w, |images|) && GroupNamesFree(w, |images|)
    ensures Cycles(w, images).1
    ensures var w' := Cycles(w, images).0;
            w'.cloud.fate == w.cloud.fate && ArnsAccounted(w', used) && GroupsInOrder(w')
  {
    if images != [] {
      var n := |images| - 1;
      var w1 := Cycles(w, images[..n]).0;
      CyclesNeverCollide(w, images[..n], used);
      assert GreenName(w.serviceName, n + 1) !in w.cloud.services;
      if n == 0 {
        assert images[..0] == [] && GreenName(w.serviceName, 1) == w.serviceName + "-green";
      } else {
        CyclesEnd(w, images[..n]);
        assert |w1.serviceName + "-green"| > |w1.serviceName|;
        assert (w1.serviceName + "-green") !in w1.cloud.services - {w1.serviceName};
      }
      LuckyCycleSucceeds(w1, images[n], used);
    }
  }
}
