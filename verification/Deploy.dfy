/** The deploy driver's operations as functions of its fields and the cloud. */
module Deploy {
  import opened Wrappers
  import opened EcsCloud
  import Config

  /** The driver's fields ("" means unset) and the cloud it talks to. */
  datatype World = World(
    hasListener: bool,
    serviceName: string, stableTG: string,
    greenService: string, greenTG: string,
    canaryService: string, canaryTG: string,
    cloud: Cloud)

  function ActiveService(w: World): string {
    if w.greenService != "" then w.greenService else w.serviceName
  }

  /** The image of a service's task definition, by two calls that change nothing. */
  function ImageOf(w: World, name: string): (World, Option<string>) {
    var (c1, service) := w.cloud.Describe(name);
    if service.None? then (w.(cloud := c1), None)
    else
      var (c2, image) := c1.DescribeImage(service.value.taskDef);
      (w.(cloud := c2), image)
  }

  function CurrentImage(w: World): (World, Option<string>) { ImageOf(w, w.serviceName) }

  function Update(w: World, image: string): (World, bool) {
    var (c1, td) := w.cloud.Register(w.serviceName, image);
    if td.None? then (w.(cloud := c1), false)
    else
      var (c2, ok) := c1.Change(w.serviceName, td, None);
      (w.(cloud := c2), ok)
  }

  function CreateGreen(w: World, image: string): (World, bool) {
    var name := w.serviceName + "-green";
    var (c1, td) := w.cloud.Register(name, image);
    if td.None? then (w.(cloud := c1), false)
    else
      var (c2, tg) := c1.NewGroup(name + "-tg");
      if tg.None? then (w.(cloud := c2), false)
      else
        var (c3, ok) := c2.NewService(name, td.value, 1, tg.value);
        (w.(cloud := c3, greenTG := tg.value, greenService := if ok then name else w.greenService), ok)
  }

  function SwitchTraffic(w: World): (World, bool) {
    if w.greenTG == "" then (w, false)
    else
      var (c1, ok) := w.cloud.Route([Forward(w.greenTG, 1)]);
      (w.(cloud := c1), ok)
  }

  function DestroyBlue(w: World): (World, bool) {
    var (c1, _) := w.cloud.Change(w.serviceName, None, Some(0));
    var (c2, gone) := c1.DropService(w.serviceName);
    if !gone then (w.(cloud := c2), false)
    else
      var (c3, ok) := if w.stableTG == "" then (c2, true) else c2.DropGroup(w.stableTG);
      if !ok then (w.(cloud := c3), false)
      else (w.(cloud := c3, serviceName := w.greenService, stableTG := w.greenTG,
               greenService := "", greenTG := ""), true)
  }

  function CreateCanary(w: World, image: string): (World, bool) {
    var name := w.serviceName + "-canary";
    var (c1, td) := w.cloud.Register(name, image);
    if td.None? then (w.(cloud := c1), false)
    else
      var (c2, tg) := c1.NewGroup(name + "-tg");
      if tg.None? then (w.(cloud := c2), false)
      else
        var (c3, ok) := c2.NewService(name, td.value, 1, tg.value);
        (w.(cloud := c3, canaryTG := tg.value, canaryService := if ok then name else w.canaryService), ok)
  }

  function CanarySplit(w: World, percent: int): seq<Forward> {
    [Forward(w.canaryTG, Config.ToInt32(percent)), Forward(w.stableTG, Config.ToInt32(100 - percent))]
  }

  function RoutePercent(w: World, percent: int): (World, bool) {
    if w.canaryTG == "" then (w, false)
    else
      var (c1, ok) := w.cloud.Route(CanarySplit(w, percent));
      (w.(cloud := c1), ok)
  }

  function DestroyCanaryService(w: World): (World, bool) {
    if w.canaryService == "" then (w, true)
    else
      var (c1, _) := w.cloud.Change(w.canaryService, None, Some(0));
      var (c2, gone) := c1.DropService(w.canaryService);
      (w.(cloud := c2, canaryService := if gone then "" else w.canaryService), gone)
  }

  function DestroyCanaryGroup(w: World): (World, bool) {
    if w.canaryTG == "" then (w, true)
    else
      var (c1, gone) := w.cloud.DropGroup(w.canaryTG);
      (w.(cloud := c1, canaryTG := if gone then "" else w.canaryTG), gone)
  }

  function DestroyCanaryResources(w: World): (World, bool) {
    var (w1, ok) := DestroyCanaryService(w);
    if !ok then (w1, false) else DestroyCanaryGroup(w1)
  }

  /** All traffic back to the stable group, as PromoteCanary and DestroyCanary do it. */
  function RestoreListener(w: World): (World, bool) {
    var (c1, ok) := w.cloud.Route([Forward(w.stableTG, 1)]);
    (w.(cloud := c1), ok)
  }

  function CanaryImage(w: World): (World, Option<string>) { ImageOf(w, w.canaryService) }

  function PromoteCanary(w: World): (World, bool) {
    if w.canaryService == "" then (w, false)
    else
      var (w1, image) := CanaryImage(w);
      if image.None? then (w1, false)
      else
        var (w2, updated) := Update(w1, image.value);
        if !updated then (w2, false)
        else
          var (w3, restored) := RestoreListener(w2);
          if !restored then (w3, false) else DestroyCanaryResources(w3)
  }

  /** The outcome of the restore is not looked at. */
  function DestroyCanary(w: World): (World, bool) {
    if w.canaryTG == "" && w.canaryService == "" then (w, true)
    else DestroyCanaryResources(if w.stableTG != "" && w.hasListener then RestoreListener(w).0 else w)
  }

  /* ----- runs ----- */

  datatype Op =
    | OpUpdate(image: string)
    | OpCreateGreen(image: string)
    | OpSwitchTraffic
    | OpDestroyBlue
    | OpCreateCanary(image: string)
    | OpRoutePercent(percent: int)
    | OpPromoteCanary
    | OpDestroyCanary

  function Apply(w: World, op: Op): (World, bool) {
    match op
    case OpUpdate(image) => Update(w, image)
    case OpCreateGreen(image) => CreateGreen(w, image)
    case OpSwitchTraffic => SwitchTraffic(w)
    case OpDestroyBlue => DestroyBlue(w)
    case OpCreateCanary(image) => CreateCanary(w, image)
    case OpRoutePercent(percent) => RoutePercent(w, percent)
    case OpPromoteCanary => PromoteCanary(w)
    case OpDestroyCanary => DestroyCanary(w)
  }

  function Run(w: World, ops: seq<Op>): World {
    if ops == [] then w else Apply(Run(w, ops[..|ops| - 1]), ops[|ops| - 1]).0
  }
}
