/** The deploy driver as the source writes it: fields updated around AWS calls. */
module ECSDeployDriver {
  import opened Wrappers
  import opened EcsCloud
  import Config
  import Deploy

  class Driver {
    const aws: AwsClients
    const listenerARN: string
    var serviceName: string
    var stableTGARN: string
    var greenServiceName: string
    var greenTGARN: string
    var canaryServiceName: string
    var canaryTGARN: string

    constructor (aws: AwsClients, serviceName: string, listenerARN: string, stableTGARN: string)
      ensures this.aws == aws
      ensures World() == Deploy.World(listenerARN != "", serviceName, stableTGARN, "", "", "", "", aws.cloud)
    {
      this.aws := aws;
      this.listenerARN := listenerARN;
      this.serviceName, this.stableTGARN := serviceName, stableTGARN;
      greenServiceName, greenTGARN, canaryServiceName, canaryTGARN := "", "", "", "";
    }

    ghost function World(): Deploy.World
      reads this, aws
    {
      Deploy.World(listenerARN != "", serviceName, stableTGARN, greenServiceName, greenTGARN,
                   canaryServiceName, canaryTGARN, aws.cloud)
    }

    function ActiveService(): (name: string)
      reads this, aws
      ensures name == Deploy.ActiveService(World())
    {
      if greenServiceName != "" then greenServiceName else serviceName
    }

    method Update(image: string) returns (ok: bool)
      modifies this, aws
      ensures (World(), ok) == Deploy.Update(old(World()), image)
    {
      var td := aws.RegisterTaskDefinition(serviceName, image);
      if td.None? { return false; }
      ok := aws.UpdateService(serviceName, td, None);
    }

    method CurrentImage() returns (image: Option<string>)
      modifies aws
      ensures (World(), image) == Deploy.CurrentImage(old(World()))
    {
      var service := aws.DescribeServices(serviceName);
      if service.None? { return None; }
      image := aws.DescribeTaskDefinition(service.value.taskDef);
    }

    method CreateGreen(image: string) returns (ok: bool)
      modifies this, aws
      ensures (World(), ok) == Deploy.CreateGreen(old(World()), image)
    {
      var greenSvcName := serviceName + "-green";
      var greenTGName := serviceName + "-green-tg";
      assert greenTGName == greenSvcName + "-tg";
      var td := aws.RegisterTaskDefinition(greenSvcName, image);
      if td.None? { return false; }
      var tg := aws.CreateTargetGroup(greenTGName);
      if tg.None? { return false; }
      greenTGARN := tg.value;
      ok := aws.CreateService(greenSvcName, td.value, 1, greenTGARN);
      if !ok { return; }
      greenServiceName := greenSvcName;
    }

    method SwitchTraffic() returns (ok: bool)
      modifies this, aws
      ensures (World(), ok) == Deploy.SwitchTraffic(old(World()))
    {
      if greenTGARN == "" { return false; }
      ok := aws.ModifyListener([Forward(greenTGARN, 1)]);
    }

    method DestroyBlue() returns (ok: bool)
      modifies this, aws
      ensures (World(), ok) == Deploy.DestroyBlue(old(World()))
    {
      var _ := aws.UpdateService(serviceName, None, Some(0));
      ok := aws.DeleteService(serviceName);
      if !ok { return; }
      if stableTGARN != "" {
        ok := aws.DeleteTargetGroup(stableTGARN);
        if !ok { return; }
      }
      serviceName := greenServiceName;
      stableTGARN := greenTGARN;
      greenServiceName := "";
      greenTGARN := "";
    }

    method CreateCanary(image: string) returns (ok: bool)
      modifies this, aws
      ensures (World(), ok) == Deploy.CreateCanary(old(World()), image)
    {
      var canarySvcName := serviceName + "-canary";
      var canaryTGName := serviceName + "-canary-tg";
      assert canaryTGName == canarySvcName + "-tg";
      var td := aws.RegisterTaskDefinition(canarySvcName, image);
      if td.None? { return false; }
      var tg := aws.CreateTargetGroup(canaryTGName);
      if tg.None? { return false; }
      canaryTGARN := tg.value;
      ok := aws.CreateService(canarySvcName, td.value, 1, canaryTGARN);
      if !ok { return; }
      canaryServiceName := canarySvcName;
    }

    method RoutePercent(percent: int) returns (ok: bool)
      modifies this, aws
      ensures (World(), ok) == Deploy.RoutePercent(old(World()), percent)
    {
      if canaryTGARN == "" { return false; }
      ok := aws.ModifyListener([Forward(canaryTGARN, Config.ToInt32(percent)),
                                Forward(stableTGARN, Config.ToInt32(100 - percent))]);
    }

    method PromoteCanary() returns (ok: bool)
      modifies this, aws
      ensures (World(), ok) == Deploy.PromoteCanary(old(World()))
    {
      if canaryServiceName == "" { return false; }
      var service := aws.DescribeServices(canaryServiceName);
      if service.None? { return false; }
      var image := aws.DescribeTaskDefinition(service.value.taskDef);
      if image.None? { return false; }
      ok := Update(image.value);
      if !ok { return; }
      ok := aws.ModifyListener([Forward(stableTGARN, 1)]);
      if !ok { return; }
      ok := DestroyCanaryResources();
    }

    method DestroyCanary() returns (ok: bool)
      modifies this, aws
      ensures (World(), ok) == Deploy.DestroyCanary(old(World()))
    {
      if canaryTGARN == "" && canaryServiceName == "" { return true; }
      if stableTGARN != "" && listenerARN != "" {
        var _ := aws.ModifyListener([Forward(stableTGARN, 1)]);
      }
      ok := DestroyCanaryResources();
    }

    method DestroyCanaryResources() returns (ok: bool)
      modifies this, aws
      ensures (World(), ok) == Deploy.DestroyCanaryResources(old(World()))
    {
      if canaryServiceName != "" {
        var _ := aws.UpdateService(canaryServiceName, None, Some(0));
        ok := aws.DeleteService(canaryServiceName);
        if !ok { return; }
        canaryServiceName := "";
      }
      if canaryTGARN != "" {
        ok := aws.DeleteTargetGroup(canaryTGARN);
        if !ok { return; }
        canaryTGARN := "";
      }
      return true;
    }
  }
}
