/** What reconciling scaling policies achieves, keeps and never leaves behind. */
module Reconciliation {
  import opened Wrappers
  import opened Config
  import opened Policies
  import opened AutoScaling
  import opened Text
  import Sorting

  /* ----- one sync ----- */

  function IDs(key: Key, names: seq<string>): set<PolicyID> {
    set n | n in names :: PolicyID(key, n)
  }

  /** Deleting removes only stale listed policies; all of them if it succeeds. */
  lemma {:induction false} DeleteStaleEffect(c: Cloud, key: Key, live: seq<string>, desired: seq<string>)
    ensures var (c', ok) := DeleteStale(c, key, live, desired);
            && c'.targets == c.targets && c'.policies.Keys <= c.policies.Keys
            && (forall id :: id in c.policies && (id !in IDs(key, live) || id in IDs(key, desired)) ==>
                  id in c'.policies)
            && (forall id :: id in c'.policies ==> c'.policies[id] == c.policies[id])
            && (ok ==> forall id :: id in IDs(key, live) && id !in IDs(key, desired) ==> id !in c'.policies)
    decreases |live|
  {
    if live != [] {
      var id := PolicyID(key, live[0]);
      assert live == [live[0]] + live[1..];
      assert IDs(key, live) == {id} + IDs(key, live[1..]);
      assert live[0] in desired <==> id in IDs(key, desired);
      if live[0] in desired {
        DeleteStaleEffect(c, key, live[1..], desired);
      } else if c.DeletePolicy(id).1 {
        DeleteStaleEffect(c.DeletePolicy(id).0, key, live[1..], desired);
      }
    }
  }

  /** The policies a list asks for: the last entry of a name wins. */
  function Asked(key: Key, ps: seq<PolicySpec>): map<PolicyID, Payload> {
    if ps == [] then map[]
    else
      var rest := Asked(key, ps[1..]);
      match PayloadOf(ps[0])
      case None => rest
      case Some(payload) => map[PolicyID(key, ps[0].name) := payload] + rest
  }

  lemma NamesSplit(ps: seq<PolicySpec>)
    requires ps != []
    ensures forall n :: n in PolicyNames(ps) <==> n == ps[0].name || n in PolicyNames(ps[1..])
  {
    assert PolicyNames(ps) == [ps[0].name] + PolicyNames(ps[1..]);
  }

  lemma {:induction false} AskedNames(key: Key, ps: seq<PolicySpec>)
    ensures Asked(key, ps).Keys <= IDs(key, PolicyNames(ps))
    ensures (forall p :: p in ps ==> PayloadOf(p).Some?) ==> Asked(key, ps).Keys == IDs(key, PolicyNames(ps))
  {
    if ps != [] {
      AskedNames(key, ps[1..]);
      NamesSplit(ps);
      assert ps == [ps[0]] + ps[1..];
      assert IDs(key, PolicyNames(ps)) == {PolicyID(key, ps[0].name)} + IDs(key, PolicyNames(ps[1..]));
    }
  }

  lemma {:induction false} LastEntryWins(key: Key, ps: seq<PolicySpec>, k: nat)
    requires k < |ps| && PayloadOf(ps[k]).Some?
    requires forall j :: k < j < |ps| ==> ps[j].name != ps[k].name
    ensures PolicyID(key, ps[k].name) in Asked(key, ps)
    ensures Asked(key, ps)[PolicyID(key, ps[k].name)] == PayloadOf(ps[k]).value
  {
    if k > 0 {
      LastEntryWins(key, ps[1..], k - 1);
    } else {
      AskedNames(key, ps[1..]);
      assert forall j :: 0 <= j < |ps[1..]| ==> ps[1..][j].name == ps[j + 1].name;
    }
  }

  lemma PutOneEffect(c: Cloud, key: Key, p: PolicySpec)
    ensures var (c', ok) := PutOne(c, key, p);
            && c'.targets == c.targets
            && (!ok ==> c'.policies == c.policies)
            && (ok ==> PayloadOf(p).Some? && c'.policies == c.policies[PolicyID(key, p.name) := PayloadOf(p).value])
  {
  }

  lemma UpdateThenAdd(m: map<PolicyID, Payload>, id: PolicyID, v: Payload, more: map<PolicyID, Payload>)
    ensures m[id := v] + more == m + (map[id := v] + more)
  {
  }

  /** Upserting adds only what is asked for and removes nothing; all of it if it succeeds. */
  lemma {:induction false} PutAllEffect(c: Cloud, key: Key, ps: seq<PolicySpec>)
    ensures var (c', ok) := PutAll(c, key, ps);
            && c'.targets == c.targets && c.policies.Keys <= c'.policies.Keys
            && c'.policies.Keys <= c.policies.Keys + IDs(key, PolicyNames(ps))
            && (forall id :: id in c.policies && id.key != key ==> c'.policies[id] == c.policies[id])
            && (ok ==> c'.policies == c.policies + Asked(key, ps) && forall p :: p in ps ==> PayloadOf(p).Some?)
    decreases |ps|
  {
    if ps != [] {
      var id := PolicyID(key, ps[0].name);
      NamesSplit(ps);
      assert ps == [ps[0]] + ps[1..];
      assert IDs(key, PolicyNames(ps)) == {id} + IDs(key, PolicyNames(ps[1..]));
      PutOneEffect(c, key, ps[0]);
      var (c1, ok) := PutOne(c, key, ps[0]);
      if ok {
        PutAllEffect(c1, key, ps[1..]);
        UpdateThenAdd(c.policies, id, PayloadOf(ps[0]).value, Asked(key, ps[1..]));
      }
    }
  }

  /** The policies of one target. */
  function Of(policies: map<PolicyID, Payload>, key: Key): map<PolicyID, Payload> {
    map id | id in policies && id.key == key :: policies[id]
  }

  /** Every other target's policies, and all targets, are untouched. */
  ghost predicate OthersUntouched(c: Cloud, c': Cloud, key: Key) {
    && c'.targets == c.targets
    && (forall id: PolicyID :: id.key != key ==> Lookup(c'.policies, id) == Lookup(c.policies, id))
  }

  /** Once no stale policy of a target is left, upserting makes its policies those asked for. */
  lemma UpsertsComplete(p0: map<PolicyID, Payload>, p1: map<PolicyID, Payload>, asked: map<PolicyID, Payload>, key: Key)
    requires forall id :: id in p1 ==> id in p0 && p1[id] == p0[id] && (id.key == key ==> id in asked)
    requires forall id :: id in p0 && id.key != key ==> id in p1
    requires forall id :: id in asked ==> id.key == key
    ensures Of(p1 + asked, key) == asked
    ensures forall id: PolicyID :: id.key != key ==> Lookup(p1 + asked, id) == Lookup(p0, id)
  {
  }

  /** A successful sync with a complete listing leaves exactly the policies asked for. */
  lemma SyncConverges(c: Cloud, config: Props, key: Key, live: seq<string>)
    requires Complete(live, c.policies.Keys, key) && SyncPolicies(c, config, key, live).1
    ensures var c' := SyncPolicies(c, config, key, live).0;
            Of(c'.policies, key) == Asked(key, Parsed(config)) && OthersUntouched(c, c', key)
    ensures forall p :: p in Parsed(config) ==> PayloadOf(p).Some?
  {
    var ps := Parsed(config);
    var c1 := DeleteStale(c, key, live, PolicyNames(ps)).0;
    DeleteStaleEffect(c, key, live, PolicyNames(ps));
    PutAllEffect(c1, key, ps);
    AskedNames(key, ps);
    assert SyncPolicies(c, config, key, live) == PutAll(c1, key, ps);
    assert IDs(key, live) == set id | id in c.policies.Keys && id.key == key;
    forall id | id in c1.policies && id.key == key ensures id in Asked(key, ps) {
      assert id in IDs(key, live);
    }
    UpsertsComplete(c.policies, c1.policies, Asked(key, ps), key);
  }

  /** However a sync ends, every policy both live and desired is still there, nothing outside
      what was live or desired has appeared, and nothing else was touched; a configuration
      that does not parse causes no call at all. */
  lemma SyncNeverOvershoots(c: Cloud, config: Props, key: Key, live: seq<string>)
    requires Complete(live, c.policies.Keys, key)
    ensures var c' := SyncPolicies(c, config, key, live).0; var desired := IDs(key, PolicyNames(Parsed(config)));
            && c.policies.Keys * desired <= c'.policies.Keys <= c.policies.Keys + desired
            && OthersUntouched(c, c', key)
    ensures Parse(config).Err? ==> SyncPolicies(c, config, key, live) == (c, false)
  {
    var ps := Parsed(config);
    var (c1, ok) := DeleteStale(c, key, live, PolicyNames(ps));
    DeleteStaleEffect(c, key, live, PolicyNames(ps));
    PutAllEffect(c1, key, ps);
    var c' := SyncPolicies(c, config, key, live).0;
    forall id: PolicyID | id.key != key ensures Lookup(c'.policies, id) == Lookup(c.policies, id) {
      assert id !in IDs(key, live) && id !in IDs(key, PolicyNames(ps));
    }
  }

  /* ----- runs ----- */

  /** No scaling policy sits on an unregistered target. */
  ghost predicate NoOrphans(c: Cloud) {
    forall id :: id in c.policies ==> id.key in c.targets
  }

  lemma ConvergeKeeps(c: Cloud, config: Props)
    requires NoOrphans(c)
    ensures NoOrphans(Converge(c, config).0)
  {
    var key := KeyOf(config);
    var capacity := ValidateCapacity(config);
    if capacity.Some? {
      var (c1, registered) := c.Register(key, Target(capacity.value.0, capacity.value.1, StrProp(config, "role_arn")));
      var (c2, live) := c1.Describe(key);
      if registered && live.Some? {
        SyncNeverOvershoots(c2, config, key, live.value);
        var c3 := SyncPolicies(c2, config, key, live.value).0;
        forall id | id in c3.policies ensures id.key in c3.targets {
          if id.key != key { assert Lookup(c3.policies, id) == Lookup(c2.policies, id); }
        }
      }
    }
  }

  /** A successful Delete has removed the target and every policy on it, and no more. */
  lemma DeleteEffect(c: Cloud, providerID: string)
    ensures var (c', ok) := Delete(c, providerID); var key := DecodeProviderID(providerID);
            && c'.policies.Keys <= c.policies.Keys
            && (ok ==> && key in c.targets && c'.targets == c.targets - {key}
                       && c'.policies == map id | id in c.policies && id.key != key :: c.policies[id])
            && (!ok ==> c'.targets == c.targets)
  {
    var key := DecodeProviderID(providerID);
    if key.ns != "" {
      var (c1, live) := c.Describe(key);
      if live.Some? {
        DeleteStaleEffect(c1, key, live.value, []);
        var (c2, gone) := DeleteStale(c1, key, live.value, []);
        assert IDs(key, live.value) == set id | id in c.policies.Keys && id.key == key;
        if gone {
          assert c2.policies == map id | id in c.policies && id.key != key :: c.policies[id];
        }
      }
    }
  }

  lemma ApplyKeeps(c: Cloud, op: Op)
    requires NoOrphans(c)
    ensures NoOrphans(Apply(c, op))
  {
    match op
    case OpCreate(config) => ConvergeKeeps(c, config);
    case OpUpdate(_, config) => ConvergeKeeps(c, config);
    case OpDelete(providerID) => DeleteEffect(c, providerID);
  }

  /** Over every run of Create, Update and Delete, whichever calls fail, no scaling policy
      exists on an unregistered target. */
  lemma {:induction false} RunsLeaveNoOrphans(c: Cloud, ops: seq<Op>)
    requires NoOrphans(c)
    ensures NoOrphans(Run(c, ops))
  {
    if ops != [] {
      RunsLeaveNoOrphans(c, ops[..|ops| - 1]);
      ApplyKeeps(Run(c, ops[..|ops| - 1]), ops[|ops| - 1]);
    }
  }

  /** What a successful Create or Update leaves. */
  lemma ConvergeEffect(c: Cloud, config: Props)
    ensures var (c', out) := Converge(c, config); var key := KeyOf(config);
            out.Some? ==>
              && key in c'.targets
              && c'.targets == c.targets[key := Target(out.value.minCapacity, out.value.maxCapacity, StrProp(config, "role_arn"))]
              && Of(c'.policies, key) == Asked(key, Parsed(config))
              && (forall id: PolicyID :: id.key != key ==> Lookup(c'.policies, id) == Lookup(c.policies, id))
              && Parse(config).Ok? && (forall p :: p in Parsed(config) ==> PayloadOf(p).Some?)
  {
    if Converge(c, config).1.Some? {
      var key := KeyOf(config);
      var (lo, hi) := ValidateCapacity(config).value;
      var c1 := c.Register(key, Target(lo, hi, StrProp(config, "role_arn"))).0;
      var (c2, live) := c1.Describe(key);
      SyncConverges(c2, config, key, live.value);
    }
  }

  lemma UpdateIsConverge(c: Cloud, providerID: string, config: Props)
    requires providerID != ""
    ensures Update(c, providerID, config).1.Some? ==>
              && EncodeProviderID(KeyOf(config)) == providerID && Update(c, providerID, config) == Converge(c, config)
              && Converge(c, config).1.value.providerID == providerID
    ensures EncodeProviderID(KeyOf(config)) != providerID ==> Update(c, providerID, config) == (c, None)
  {
  }

  /** Under a ProviderID an update goes for the target that prints so, or is refused before
      any call. That target is the one the ProviderID decodes to exactly when its namespace
      and resource are free of the separator. */
  lemma UpdateKeepsIdentity(c: Cloud, providerID: string, config: Props)
    requires providerID != ""
    ensures var (c', out) := Update(c, providerID, config); var key := KeyOf(config);
            out.Some? ==>
              && out.value.providerID == providerID && key in c'.targets && c'.targets - {key} == c.targets - {key}
              && (DecodeProviderID(providerID) == key <==> Free(key.ns, '|') && Free(key.resource, '|'))
    ensures EncodeProviderID(KeyOf(config)) != providerID ==> Update(c, providerID, config) == (c, None)
  {
    UpdateIsConverge(c, providerID, config);
    ConvergeEffect(c, config);
    ProviderIDRoundTrip(KeyOf(config));
  }

  /** Every call from now on goes through, and the next one can list a target's policies. */
  ghost predicate Answers(c: Cloud, key: Key) {
    (forall n: nat | n >= c.calls :: c.fate(n).ok) && c.Describe(key).1.Some?
  }

  lemma {:induction false} DeletionsComplete(c: Cloud, key: Key, live: seq<string>, desired: seq<string>)
    requires forall n: nat | n >= c.calls :: c.fate(n).ok
    requires forall n | n in live :: PolicyID(key, n) in c.policies
    requires forall i, j | 0 <= i < j < |live| :: live[i] != live[j]
    ensures var (c', ok) := DeleteStale(c, key, live, desired); ok && c'.fate == c.fate && c'.calls >= c.calls
    decreases |live|
  {
    if live != [] {
      assert live == [live[0]] + live[1..];
      if live[0] in desired {
        DeletionsComplete(c, key, live[1..], desired);
      } else {
        DeletionsComplete(c.DeletePolicy(PolicyID(key, live[0])).0, key, live[1..], desired);
      }
    }
  }

  lemma ListedDeletionsComplete(c: Cloud, key: Key, live: seq<string>, desired: seq<string>)
    requires (forall n: nat | n >= c.calls :: c.fate(n).ok) && Complete(live, c.policies.Keys, key)
    ensures var (c', ok) := DeleteStale(c, key, live, desired); ok && c'.fate == c.fate && c'.calls >= c.calls
  {
    assert IDs(key, live) == set id | id in c.policies.Keys && id.key == key;
    forall n | n in live ensures PolicyID(key, n) in c.policies { assert PolicyID(key, n) in IDs(key, live); }
    DeletionsComplete(c, key, live, desired);
  }

  lemma {:induction false} UpsertsSucceedIff(c: Cloud, key: Key, ps: seq<PolicySpec>)
    requires forall n: nat | n >= c.calls :: c.fate(n).ok
    ensures PutAll(c, key, ps).1 <==> forall p | p in ps :: PayloadOf(p).Some?
    decreases |ps|
  {
    if ps != [] {
      assert ps == [ps[0]] + ps[1..];
      var (c1, ok) := PutOne(c, key, ps[0]);
      if ok { UpsertsSucceedIff(c1, key, ps[1..]); }
    }
  }

  /** A configuration that can be brought about at all. */
  predicate Feasible(config: Props) {
    ValidateCapacity(config).Some? && Parse(config).Ok? && forall p | p in Parsed(config) :: PayloadOf(p).Some?
  }

  /** A Create or Update whose calls go through and whose listing is complete succeeds exactly
      for a configuration with a valid capacity and only complete policies of known types. */
  lemma ConvergeSucceedsIff(c: Cloud, config: Props)
    requires forall n: nat | n >= c.calls :: c.fate(n).ok
    requires Complete(c.fate(c.calls + 1).names, c.policies.Keys, KeyOf(config))
    ensures Converge(c, config).1.Some? <==> Feasible(config)
  {
    var (key, capacity) := (KeyOf(config), ValidateCapacity(config));
    if capacity.Some? && Parse(config).Ok? {
      var c1 := c.Register(key, Target(capacity.value.0, capacity.value.1, StrProp(config, "role_arn"))).0;
      var (c2, live) := c1.Describe(key);
      ListedDeletionsComplete(c2, key, live.value, PolicyNames(Parsed(config)));
      UpsertsSucceedIff(DeleteStale(c2, key, live.value, PolicyNames(Parsed(config))).0, key, Parsed(config));
    }
  }

  /** A Delete whose calls go through succeeds exactly when its ProviderID decodes to a
      registered target with a namespace. */
  lemma DeleteCompletesIff(c: Cloud, providerID: string)
    requires Answers(c, DecodeProviderID(providerID))
    ensures var key := DecodeProviderID(providerID); Delete(c, providerID).1 <==> key.ns != "" && key in c.targets
  {
    var key := DecodeProviderID(providerID);
    if key.ns != "" {
      var (c1, live) := c.Describe(key);
      ListedDeletionsComplete(c1, key, live.value, []);
      DeleteStaleEffect(c1, key, live.value, []);
    }
  }

  /** Deleting what was added restores the rest exactly if it is what the ProviderID decodes to. */
  lemma DeleteRestoresIff(c: Cloud, c1: Cloud, key: Key, providerID: string)
    requires NoOrphans(c) && key !in c.targets && Delete(c1, providerID).1
    requires key in c1.targets && c1.targets - {key} == c.targets
    requires forall id: PolicyID :: id.key != key ==> Lookup(c1.policies, id) == Lookup(c.policies, id)
    ensures var c2 := Delete(c1, providerID).0;
            c2.targets == c.targets && c2.policies == c.policies <==> DecodeProviderID(providerID) == key
  {
    DeleteEffect(c1, providerID);
    WithoutTarget(c.policies, c1.policies, key);
  }

  /** Creating a new target and deleting by the returned ProviderID: what a Delete that
      succeeds leaves is what was there before exactly when namespace and resource are free of
      the separator; and then it does succeed if its calls go through. */
  lemma CreateThenDelete(c: Cloud, config: Props)
    requires NoOrphans(c) && KeyOf(config) !in c.targets
    ensures var (c1, out) := Create(c, config); var key := KeyOf(config);
            out.Some? ==>
              var (c2, ok) := Delete(c1, out.value.providerID); var free := Free(key.ns, '|') && Free(key.resource, '|');
              && (ok ==> (c2.targets == c.targets && c2.policies == c.policies <==> free))
              && (free && Answers(c1, key) ==> ok)
  {
    var key := KeyOf(config);
    var (c1, out) := Create(c, config);
    if out.Some? {
      var providerID := out.value.providerID;
      CreateIs(c, config);
      ProviderIDRoundTrip(key);
      if Delete(c1, providerID).1 { DeleteRestoresIff(c, c1, key, providerID); }
      if DecodeProviderID(providerID) == key && Answers(c1, key) { DeleteCompletesIff(c1, providerID); }
    }
  }

  lemma CreateIs(c: Cloud, config: Props)
    requires KeyOf(config) !in c.targets
    ensures var (c1, out) := Create(c, config); var key := KeyOf(config);
            out.Some? ==>
              && out.value.providerID == EncodeProviderID(key) && key.ns != ""
              && key in c1.targets && c1.targets - {key} == c.targets
              && forall id: PolicyID :: id.key != key ==> Lookup(c1.policies, id) == Lookup(c.policies, id)
  {
    ConvergeEffect(c, config);
  }

  lemma WithoutTarget(before: map<PolicyID, Payload>, during: map<PolicyID, Payload>, key: Key)
    requires forall id :: id in before ==> id.key != key
    requires forall id: PolicyID :: id.key != key ==> Lookup(during, id) == Lookup(before, id)
    ensures (map id | id in during && id.key != key :: during[id]) == before
  {
    forall id | id in before ensures id in during && during[id] == before[id] {
      assert Lookup(during, id) == Lookup(before, id);
    }
    forall id | id in during && id.key != key ensures id in before {
      assert Lookup(during, id) == Lookup(before, id);
    }
  }

  /* ----- how far a sync got ----- */

  /** The upserts that were made are those of the first policies. */
  lemma {:induction false} PutsInOrder(c: Cloud, key: Key, ps: seq<PolicySpec>) returns (k: nat)
    ensures k <= |ps| && PutAll(c, key, ps).0.policies == c.policies + Asked(key, ps[..k])
    ensures PutAll(c, key, ps).1 <==> k == |ps|
    ensures forall p | p in ps[..k] :: PayloadOf(p).Some?
    decreases |ps|
  {
    k := 0;
    if ps != [] && PutOne(c, key, ps[0]).1 {
      var c1 := PutOne(c, key, ps[0]).0;
      PutOneEffect(c, key, ps[0]);
      var j := PutsInOrder(c1, key, ps[1..]);
      k := j + 1;
      assert ps[..k] == [ps[0]] + ps[1..][..j] && ps[..k][1..] == ps[1..][..j];
      UpdateThenAdd(c.policies, PolicyID(key, ps[0].name), PayloadOf(ps[0]).value, Asked(key, ps[1..][..j]));
    }
  }

  /** Nothing is put while a stale policy that was listed is left. */
  lemma DeletesBeforePuts(c: Cloud, config: Props, key: Key, live: seq<string>, stale: string)
    requires stale in live && stale !in PolicyNames(Parsed(config))
    ensures var c' := SyncPolicies(c, config, key, live).0;
            PolicyID(key, stale) in c'.policies ==>
              forall id | id in c'.policies :: id in c.policies && c'.policies[id] == c.policies[id]
  {
    var ps := Parsed(config);
    var (c1, ok) := DeleteStale(c, key, live, PolicyNames(ps));
    DeleteStaleEffect(c, key, live, PolicyNames(ps));
    PutAllEffect(c1, key, ps);
    assert PolicyID(key, stale) in IDs(key, live) && PolicyID(key, stale) !in IDs(key, PolicyNames(ps));
  }
}
