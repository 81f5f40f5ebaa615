/**
The part of ECS and the load balancer the deploy driver changes. A cloud is a value: it
holds task definitions, services, target groups and the listener's forwards, a log of the
calls made on it, and for every call number what the service will do with that call.
A call that fails has no effect. Nothing stops a group that the listener names from being
deleted, or the listener from naming a group that does not exist.
*/
module EcsCloud {
  import opened Wrappers

  /** What happens to one call: whether it goes through, which ARN a new target group
      gets, and whether an answer comes back empty. */
  datatype Fate = Fate(ok: bool, arn: string, empty: bool)

  datatype Service = Service(taskDef: nat, desired: int, group: string)

  datatype Forward = Forward(group: string, weight: int)

  datatype Call =
    | RegisterTaskDefinition(family: string, image: string)
    | CreateTargetGroup(name: string)
    | CreateService(name: string, definition: nat, count: int, group: string)
    | DescribeServices(name: string)
    | DescribeTaskDefinition(taskDef: nat)
    | UpdateService(name: string, change: Option<nat>, desired: Option<int>)
    | DeleteService(name: string)
    | DeleteTargetGroup(arn: string)
    | ModifyListener(forwards: seq<Forward>)

  datatype Event = Event(call: Call, ok: bool)

  datatype Cloud = Cloud(
    fate: nat -> Fate,
    log: seq<Event>,
    images: seq<string>,              // task definition number -> image
    services: map<string, Service>,   // by name
    groups: map<string, string>,      // target group ARN -> name
    listener: seq<Forward>)
  {
    function Now(): Fate { fate(|log|) }

    function Logged(call: Call, ok: bool): Cloud { this.(log := log + [Event(call, ok)]) }

    /** Every registration makes a new revision. */
    function Register(family: string, image: string): (Cloud, Option<nat>) {
      var after := Logged(RegisterTaskDefinition(family, image), Now().ok);
      if Now().ok then (after.(images := images + [image]), Some(|images|)) else (after, None)
    }

    /** A new group gets an ARN no group has; asking again for a name that is taken may
        answer with the group that has it. An answer may also list no group. */
    function NewGroup(name: string): (Cloud, Option<string>) {
      var arn := Now().arn;
      var ok := Now().ok && arn != "" && (arn !in groups || groups[arn] == name);
      var after := Logged(CreateTargetGroup(name), ok);
      if !ok then (after, None)
      else (after.(groups := groups[arn := name]), if Now().empty then None else Some(arn))
    }

    function NewService(name: string, taskDef: nat, desired: int, group: string): (Cloud, bool) {
      var ok := Now().ok && name !in services;
      var after := Logged(CreateService(name, taskDef, desired, group), ok);
      (if ok then after.(services := services[name := Service(taskDef, desired, group)]) else after, ok)
    }

    function Describe(name: string): (Cloud, Option<Service>) {
      var ok := Now().ok && name in services;
      (Logged(DescribeServices(name), ok), if ok then Some(services[name]) else None)
    }

    function DescribeImage(taskDef: nat): (Cloud, Option<string>) {
      var ok := Now().ok && taskDef < |images| && !Now().empty;
      (Logged(DescribeTaskDefinition(taskDef), ok), if ok then Some(images[taskDef]) else None)
    }

    /** Changes the task definition or the desired count, whichever is given. */
    function Change(name: string, taskDef: Option<nat>, desired: Option<int>): (Cloud, bool) {
      var ok := Now().ok && name in services;
      var after := Logged(UpdateService(name, taskDef, desired), ok);
      if !ok then (after, false)
      else
        var s := services[name];
        var s1 := if taskDef.Some? then s.(taskDef := taskDef.value) else s;
        var s2 := if desired.Some? then s1.(desired := desired.value) else s1;
        (after.(services := services[name := s2]), true)
    }

    function DropService(name: string): (Cloud, bool) {
      var ok := Now().ok && name in services;
      var after := Logged(DeleteService(name), ok);
      (if ok then after.(services := services - {name}) else after, ok)
    }

    function DropGroup(arn: string): (Cloud, bool) {
      var ok := Now().ok && arn in groups;
      var after := Logged(DeleteTargetGroup(arn), ok);
      (if ok then after.(groups := groups - {arn}) else after, ok)
    }

    function Route(forwards: seq<Forward>): (Cloud, bool) {
      var after := Logged(ModifyListener(forwards), Now().ok);
      (if Now().ok then after.(listener := forwards) else after, Now().ok)
    }
  }

  /** The clients the driver holds: each method is one call. */
  class AwsClients {
    var cloud: Cloud

    constructor (cloud: Cloud)
      ensures this.cloud == cloud
    {
      this.cloud := cloud;
    }

    method RegisterTaskDefinition(family: string, image: string) returns (r: Option<nat>)
      modifies this
      ensures (cloud, r) == old(cloud).Register(family, image)
    {
      r := cloud.Register(family, image).1;
      cloud := cloud.Register(family, image).0;
    }

    method CreateTargetGroup(name: string) returns (r: Option<string>)
      modifies this
      ensures (cloud, r) == old(cloud).NewGroup(name)
    {
      r := cloud.NewGroup(name).1;
      cloud := cloud.NewGroup(name).0;
    }

    method CreateService(name: string, taskDef: nat, desired: int, group: string) returns (ok: bool)
      modifies this
      ensures (cloud, ok) == old(cloud).NewService(name, taskDef, desired, group)
    {
      ok := cloud.NewService(name, taskDef, desired, group).1;
      cloud := cloud.NewService(name, taskDef, desired, group).0;
    }

    method DescribeServices(name: string) returns (r: Option<Service>)
      modifies this
      ensures (cloud, r) == old(cloud).Describe(name)
    {
      r := cloud.Describe(name).1;
      cloud := cloud.Describe(name).0;
    }

    method DescribeTaskDefinition(taskDef: nat) returns (r: Option<string>)
      modifies this
      ensures (cloud, r) == old(cloud).DescribeImage(taskDef)
    {
      r := cloud.DescribeImage(taskDef).1;
      cloud := cloud.DescribeImage(taskDef).0;
    }

    method UpdateService(name: string, taskDef: Option<nat>, desired: Option<int>) returns (ok: bool)
      modifies this
      ensures (cloud, ok) == old(cloud).Change(name, taskDef, desired)
    {
      ok := cloud.Change(name, taskDef, desired).1;
      cloud := cloud.Change(name, taskDef, desired).0;
    }

    method DeleteService(name: string) returns (ok: bool)
      modifies this
      ensures (cloud, ok) == old(cloud).DropService(name)
    {
      ok := cloud.DropService(name).1;
      cloud := cloud.DropService(name).0;
    }

    method DeleteTargetGroup(arn: string) returns (ok: bool)
      modifies this
      ensures (cloud, ok) == old(cloud).DropGroup(arn)
    {
      ok := cloud.DropGroup(arn).1;
      cloud := cloud.DropGroup(arn).0;
    }

    method ModifyListener(forwards: seq<Forward>) returns (ok: bool)
      modifies this
      ensures (cloud, ok) == old(cloud).Route(forwards)
    {
      ok := cloud.Route(forwards).1;
      cloud := cloud.Route(forwards).0;
    }
  }
}
