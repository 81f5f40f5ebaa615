/** The auto-scaling driver as the source writes it: calls and loops over a client. */
module AutoScalingGroupDriver {
  import opened Wrappers
  import opened Config
  import opened Policies
  import opened AutoScaling
  import Mapping
  import Sorting
  import Text

  /** The client the driver holds: each method is one call. */
  class AutoScalingClient {
    var cloud: Cloud

    constructor (cloud: Cloud)
      ensures this.cloud == cloud
    {
      this.cloud := cloud;
    }

    method RegisterScalableTarget(key: Key, target: Target) returns (ok: bool)
      modifies this
      ensures (cloud, ok) == old(cloud).Register(key, target)
    {
      ok := cloud.Register(key, target).1;
      cloud := cloud.Register(key, target).0;
    }

    method DescribeScalableTargets(key: Key) returns (r: Option<Target>)
      modifies this
      ensures (cloud, r) == old(cloud).DescribeTarget(key)
    {
      r := cloud.DescribeTarget(key).1;
      cloud := cloud.DescribeTarget(key).0;
    }

    method DescribeScalingPolicies(key: Key) returns (r: Option<seq<string>>)
      modifies this
      ensures (cloud, r) == old(cloud).Describe(key)
    {
      r := cloud.Describe(key).1;
      cloud := cloud.Describe(key).0;
    }

    method PutScalingPolicy(id: PolicyID, payload: Payload) returns (ok: bool)
      modifies this
      ensures (cloud, ok) == old(cloud).PutPolicy(id, payload)
    {
      ok := cloud.PutPolicy(id, payload).1;
      cloud := cloud.PutPolicy(id, payload).0;
    }

    method DeleteScalingPolicy(id: PolicyID) returns (ok: bool)
      modifies this
      ensures (cloud, ok) == old(cloud).DeletePolicy(id)
    {
      ok := cloud.DeletePolicy(id).1;
      cloud := cloud.DeletePolicy(id).0;
    }

    method DeregisterScalableTarget(key: Key) returns (ok: bool)
      modifies this
      ensures (cloud, ok) == old(cloud).Deregister(key)
    {
      ok := cloud.Deregister(key).1;
      cloud := cloud.Deregister(key).0;
    }
  }

  /** The policy_names output: left out, the driver's own slice, or decoded from JSON. */
  datatype NameList = Absent | Native(names: array<string>) | Decoded(items: seq<Value>)

  ghost function NamesIn(list: NameList): seq<string>
    reads if list.Native? then {list.names} else {}
  {
    match list
    case Absent => []
    case Native(names) => names[..]
    case Decoded(items) => OnlyStrings(items)
  }

  class ResourceOutput {
    const providerID: string
    const minCapacity: int
    const maxCapacity: int
    const policyNames: NameList
    const fingerprint: Option<string>

    constructor (providerID: string, minCapacity: int, maxCapacity: int, policyNames: NameList, fingerprint: Option<string>)
      ensures this.providerID == providerID && this.minCapacity == minCapacity && this.maxCapacity == maxCapacity
      ensures this.policyNames == policyNames && this.fingerprint == fingerprint
    {
      this.providerID, this.minCapacity, this.maxCapacity := providerID, minCapacity, maxCapacity;
      this.policyNames, this.fingerprint := policyNames, fingerprint;
    }

    ghost function View(): Output
      reads if policyNames.Native? then {policyNames.names} else {}
    {
      Output(providerID, minCapacity, maxCapacity, NamesIn(policyNames), fingerprint)
    }
  }

  /** sort.Strings: rearranges its argument in place. */
  method SortStrings(a: array<string>)
    modifies a
    ensures a[..] == Sorting.Sort(old(a[..]), Itself)
  {
    var sorted := Sorting.Sort(a[..], Itself);
    Sorting.SortCorrect(a[..], Itself);
    var i := 0;
    while i < a.Length
      invariant 0 <= i <= a.Length == |sorted|
      invariant a[..i] == sorted[..i]
    {
      a[i] := sorted[i];
      i := i + 1;
    }
    assert a[..] == a[..i];
  }

  method ToArray(names: seq<string>) returns (a: array<string>)
    ensures fresh(a) && a[..] == names
  {
    a := new string[|names|](i requires 0 <= i < |names| => names[i]);
  }

  lemma NoPoliciesNoPrint(ps: seq<PolicySpec>)
    ensures ps == [] ==> Fingerprint(EncodeAll(ps)) == ""
  {
    if ps == [] { assert EncodeAll(ps) == []; }
  }

  /** The policies may be put in order before or after they are encoded. */
  lemma SortedPrint(ps: seq<PolicySpec>)
    ensures Fingerprint(EncodeAll(ps)) == Text.Join(PrintAll(EncodeAll(Sorting.Sort(ps, PolicyName))), '|')
  {
    Mapping.MapSort(ps, PolicyName, Encode, NameOf);
  }

  class Driver {
    const client: AutoScalingClient

    constructor (client: AutoScalingClient)
      ensures this.client == client
    {
      this.client := client;
    }

    method DesiredPolicyNames(config: Props) returns (names: seq<string>)
      ensures names == PolicyNames(Parsed(config))
    {
      var policies := ParsePolicies(config);
      if policies.Err? { return []; }
      names := [];
      var i := 0;
      while i < |policies.value|
        invariant 0 <= i <= |policies.value|
        invariant names == PolicyNames(policies.value)[..i]
      {
        names := names + [policies.value[i].name];
        i := i + 1;
      }
    }

    method PolicyConfigFingerprint(config: Props) returns (fingerprint: string)
      ensures fingerprint == AutoScaling.PolicyConfigFingerprint(config)
    {
      var policies := ParsePolicies(config);
      if policies.Err? || policies.value == [] {
        NoPoliciesNoPrint(Parsed(config));
        return "";
      }
      SortedPrint(policies.value);
      var parts := PrintEach(Sorting.Sort(policies.value, PolicyName));
      return Text.Join(parts, '|');
    }

    method PrintEach(sorted: seq<PolicySpec>) returns (parts: seq<string>)
      ensures parts == PrintAll(EncodeAll(sorted))
    {
      parts := [];
      var i := 0;
      while i < |sorted|
        invariant 0 <= i <= |sorted|
        invariant parts == PrintAll(EncodeAll(sorted))[..i]
      {
        parts := parts + [Print(Encode(sorted[i]))];
        i := i + 1;
      }
    }

    method SyncPolicies(config: Props, key: Key, live: seq<string>) returns (ok: bool)
      modifies client
      ensures (client.cloud, ok) == AutoScaling.SyncPolicies(old(client.cloud), config, key, live)
    {
      var parsed := ParsePolicies(config);
      if parsed.Err? { return false; }
      var desired := parsed.value;
      ok := DeleteListed(key, live, PolicyNames(desired));
      if !ok { return; }
      ghost var start := client.cloud;
      var i := 0;
      assert desired[0..] == desired;
      while i < |desired|
        invariant 0 <= i <= |desired|
        invariant PutAll(start, key, desired) == PutAll(client.cloud, key, desired[i..])
      {
        assert desired[i..][1..] == desired[i + 1..];
        ok := PutOnePolicy(key, desired[i]);
        if !ok { return; }
        i := i + 1;
      }
      return true;
    }

    method PutOnePolicy(key: Key, p: PolicySpec) returns (ok: bool)
      modifies client
      ensures (client.cloud, ok) == PutOne(old(client.cloud), key, p)
    {
      var payload := PayloadOf(p);
      if payload.None? { return false; }
      ok := client.PutScalingPolicy(PolicyID(key, p.name), payload.value);
    }

    /** Deletes the listed policies that are not to be kept. */
    method DeleteListed(key: Key, live: seq<string>, keep: seq<string>) returns (ok: bool)
      modifies client
      ensures (client.cloud, ok) == DeleteStale(old(client.cloud), key, live, keep)
    {
      ghost var start := client.cloud;
      var i := 0;
      assert live[0..] == live;
      while i < |live|
        invariant 0 <= i <= |live|
        invariant DeleteStale(start, key, live, keep) == DeleteStale(client.cloud, key, live[i..], keep)
      {
        assert live[i..][1..] == live[i + 1..];
        if live[i] !in keep {
          ok := client.DeleteScalingPolicy(PolicyID(key, live[i]));
          if !ok { return; }
        }
        i := i + 1;
      }
      return true;
    }

    /** The part Create and Update share. */
    method Reconcile(config: Props) returns (out: ResourceOutput?)
      modifies client
      ensures client.cloud == Converge(old(client.cloud), config).0
      ensures out == null <==> Converge(old(client.cloud), config).1.None?
      ensures out != null ==> fresh(out) && (out.policyNames.Native? ==> fresh(out.policyNames.names))
      ensures out != null ==> out.View() == Converge(old(client.cloud), config).1.value
    {
      var key := KeyOf(config);
      var capacity := ValidateCapacity(config);
      if capacity.None? { return null; }
      var (lo, hi) := capacity.value;
      var registered := client.RegisterScalableTarget(key, Target(lo, hi, StrProp(config, "role_arn")));
      if !registered { return null; }
      var live := client.DescribeScalingPolicies(key);
      if live.None? { return null; }
      var synced := SyncPolicies(config, key, live.value);
      if !synced { return null; }
      var names := DesiredPolicyNames(config);
      var list := Absent;
      if |names| > 0 {
        var a := ToArray(names);
        list := Native(a);
      }
      var fingerprint := PolicyConfigFingerprint(config);
      out := new ResourceOutput(EncodeProviderID(key), lo, hi, list, Some(fingerprint));
    }

    method Create(config: Props) returns (out: ResourceOutput?)
      modifies client
      ensures client.cloud == AutoScaling.Create(old(client.cloud), config).0
      ensures out == null <==> AutoScaling.Create(old(client.cloud), config).1.None?
      ensures out != null ==> out.View() == AutoScaling.Create(old(client.cloud), config).1.value
    {
      if !HasFields(config) { return null; }
      out := Reconcile(config);
    }

    method Update(providerID: string, config: Props) returns (out: ResourceOutput?)
      modifies client
      ensures client.cloud == AutoScaling.Update(old(client.cloud), providerID, config).0
      ensures out == null <==> AutoScaling.Update(old(client.cloud), providerID, config).1.None?
      ensures out != null ==> out.View() == AutoScaling.Update(old(client.cloud), providerID, config).1.value
    {
      if !HasFields(config) { return null; }
      if providerID != "" && providerID != EncodeProviderID(KeyOf(config)) { return null; }
      out := Reconcile(config);
    }

    method Delete(providerID: string) returns (ok: bool)
      modifies client
      ensures (client.cloud, ok) == AutoScaling.Delete(old(client.cloud), providerID)
    {
      var key := DecodeProviderID(providerID);
      if key.ns == "" { return false; }
      var live := client.DescribeScalingPolicies(key);
      if live.None? { return false; }
      ok := DeleteListed(key, live.value, []);
      if !ok { return; }
      ok := client.DeregisterScalableTarget(key);
    }

    method Read(providerID: string) returns (out: ResourceOutput?)
      modifies client
      ensures client.cloud == AutoScaling.Read(old(client.cloud), providerID).0
      ensures out == null <==> AutoScaling.Read(old(client.cloud), providerID).1.None?
      ensures out != null ==> out.View() == AutoScaling.Read(old(client.cloud), providerID).1.value
    {
      var key := DecodeProviderID(providerID);
      if key.ns == "" { return null; }
      var target := client.DescribeScalableTargets(key);
      if target.None? { return null; }
      var live := client.DescribeScalingPolicies(key);
      if live.None? { return null; }
      var list := Absent;
      if |live.value| > 0 {
        var a := ToArray(live.value);
        list := Native(a);
      }
      out := new ResourceOutput(EncodeProviderID(key), target.value.minCapacity, target.value.maxCapacity, list, None);
    }

    /** Compares a spec with an output. The output's own list of names is left sorted. */
    method Diff(config: Props, current: ResourceOutput?) returns (needsUpdate: bool, changes: set<Change>)
      modifies if current != null && current.policyNames.Native? then {current.policyNames.names} else {}
      ensures current == null ==> needsUpdate && changes == {}
      ensures current != null ==> changes == ChangesOf(Wanted(config), Current(old(current.View())))
      ensures current != null ==> (needsUpdate <==> Changed(config, old(current.View())) != {})
      ensures current != null && current.policyNames.Native? ==>
                current.policyNames.names[..] == Sorting.Sort(old(current.policyNames.names[..]), Itself)
    {
      if current == null { return true, {}; }
      ghost var view := current.View();
      var curKey := JoinNames(current.policyNames);
      var want := WantedOutputs(config);
      var have := map[
        "min_capacity" := Text.IntText(current.minCapacity),
        "max_capacity" := Text.IntText(current.maxCapacity),
        "policy_names" := curKey,
        "policy_fingerprint" := if current.fingerprint.Some? then current.fingerprint.value else "",
        "provider_id" := current.providerID];
      assert have == Current(view);
      changes := DiffOutputs(want, have);
      ChangesShow(want, have);
      needsUpdate := changes != {};
    }

    method WantedOutputs(config: Props) returns (want: map<string, string>)
      ensures want == Wanted(config)
    {
      var wanted := DesiredPolicyNames(config);
      var fingerprint := PolicyConfigFingerprint(config);
      want := map[
        "min_capacity" := Text.IntText(IntProp(config, "min_capacity", 0)),
        "max_capacity" := Text.IntText(IntProp(config, "max_capacity", 1)),
        "policy_names" := Text.Join(Sorting.Sort(wanted, Itself), ','),
        "policy_fingerprint" := fingerprint,
        "provider_id" := EncodeProviderID(KeyOf(config))];
    }

    /** The names sorted, in place when they are the driver's own slice, and joined. */
    method JoinNames(list: NameList) returns (key: string)
      modifies if list.Native? then {list.names} else {}
      ensures key == NamesKey(old(NamesIn(list)))
      ensures list.Native? ==> list.names[..] == Sorting.Sort(old(list.names[..]), Itself)
    {
      match list {
        case Absent => return "";
        case Native(names) =>
          SortStrings(names);
          key := Text.Join(names[..], ',');
        case Decoded(items) =>
          var cur := StringsOf(items);
          key := Text.Join(Sorting.Sort(cur, Itself), ',');
      }
    }
  }

  lemma ChangesShow(want: map<string, string>, have: map<string, string>)
    ensures ChangesOf(want, have) == {} <==> (set k | k in want && Lookup(have, k) != Some(want[k])) == {}
  {
    var paths := set k | k in want && Lookup(have, k) != Some(want[k]);
    forall k | k in paths ensures ChangesOf(want, have) != {} {
      assert Change(k, Lookup(have, k), want[k]) in ChangesOf(want, have);
    }
    forall ch | ch in ChangesOf(want, have) ensures paths != {} {
      assert ch.path in paths;
    }
  }
}
