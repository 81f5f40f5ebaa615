/** The IAM role driver as the source writes it: calls and loops over a client. */
module IAMDriver {
  import opened Wrappers
  import opened Config
  import opened Iam

  /** The client the driver holds: each method is one call. */
  class IAMClient {
    var cloud: Cloud

    constructor (cloud: Cloud)
      ensures this.cloud == cloud
    {
      this.cloud := cloud;
    }

    method UpdateAssumeRolePolicy(name: string, trust: string) returns (ok: bool)
      modifies this
      ensures (cloud, ok) == old(cloud).SetTrust(name, trust)
    {
      ok := cloud.SetTrust(name, trust).1;
      cloud := cloud.SetTrust(name, trust).0;
    }

    method GetRole(name: string) returns (role: Option<Role>)
      modifies this
      ensures (cloud, role) == old(cloud).GetRole(name)
    {
      role := cloud.GetRole(name).1;
      cloud := cloud.GetRole(name).0;
    }

    method ListAttachedRolePolicies(name: string) returns (arns: Option<seq<string>>)
      modifies this
      ensures (cloud, arns) == old(cloud).ListAttached(name)
    {
      arns := cloud.ListAttached(name).1;
      cloud := cloud.ListAttached(name).0;
    }

    method AttachRolePolicy(name: string, arn: string) returns (ok: bool)
      modifies this
      ensures (cloud, ok) == old(cloud).Attach(name, arn)
    {
      ok := cloud.Attach(name, arn).1;
      cloud := cloud.Attach(name, arn).0;
    }

    method DetachRolePolicy(name: string, arn: string) returns (ok: bool)
      modifies this
      ensures (cloud, ok) == old(cloud).Detach(name, arn)
    {
      ok := cloud.Detach(name, arn).1;
      cloud := cloud.Detach(name, arn).0;
    }
  }

  class Driver {
    const client: IAMClient

    constructor (client: IAMClient)
      ensures this.client == client
    {
      this.client := client;
    }

    method Read(name: string) returns (out: Option<Output>)
      modifies client
      ensures (client.cloud, out) == Iam.Read(old(client.cloud), name)
    {
      var role := client.GetRole(name);
      if role.None? { return None; }
      var outputs: Props := map["arn" := Str(role.value.arn), "role_id" := Str(role.value.id)];
      if role.value.description.Some? {
        outputs := outputs["description" := Str(role.value.description.value)];
      }
      var page := client.ListAttachedRolePolicies(name);
      if page.Some? { outputs := outputs["policy_arns" := Strs(page.value)]; }
      return Some(Output(name, role.value.arn, outputs));
    }

    method AttachEach(name: string, arns: seq<string>) returns (ok: bool)
      modifies client
      ensures (client.cloud, ok) == AttachAll(old(client.cloud), name, arns)
    {
      ghost var start := client.cloud;
      var i := 0;
      assert arns[0..] == arns;
      while i < |arns|
        invariant 0 <= i <= |arns|
        invariant AttachAll(start, name, arns) == AttachAll(client.cloud, name, arns[i..])
      {
        assert arns[i..][1..] == arns[i + 1..];
        ok := client.AttachRolePolicy(name, arns[i]);
        if !ok { return; }
        i := i + 1;
      }
      return true;
    }

    method DetachEach(name: string, arns: seq<string>) returns (ok: bool)
      modifies client
      ensures (client.cloud, ok) == DetachAll(old(client.cloud), name, arns)
    {
      ghost var start := client.cloud;
      var i := 0;
      assert arns[0..] == arns;
      while i < |arns|
        invariant 0 <= i <= |arns|
        invariant DetachAll(start, name, arns) == DetachAll(client.cloud, name, arns[i..])
      {
        assert arns[i..][1..] == arns[i + 1..];
        ok := client.DetachRolePolicy(name, arns[i]);
        if !ok { return; }
        i := i + 1;
      }
      return true;
    }

    method Update(name: string, config: Props) returns (out: Option<Output>)
      modifies client
      ensures (client.cloud, out) == Iam.Update(old(client.cloud), name, config)
    {
      var trust := StrProp(config, "assume_role_policy");
      if trust != "" {
        var trusted := client.UpdateAssumeRolePolicy(name, trust);
        if !trusted { return None; }
      }
      var current := Read(name);
      if current.None? { return None; }
      var desired := StringSlice(config, "policy_arns");
      var listed := StringSlice(current.value.outputs, "policy_arns");
      var missing := DiffSlice(desired, listed);
      var ok := AttachEach(name, missing);
      if !ok { return None; }
      var stale := DiffSlice(listed, desired);
      ok := DetachEach(name, stale);
      if !ok { return None; }
      out := Read(name);
    }
  }
}
