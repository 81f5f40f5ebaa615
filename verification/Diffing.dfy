/** What a diff against a driver's own output reports. */
module Diffing {
  import opened Wrappers
  import opened Config
  import opened Policies
  import opened AutoScaling
  import opened Reconciliation
  import opened Text
  import Mapping
  import Sorting

  /** The values a diff compares, one by one. */
  lemma ChangedIs(config: Props, out: Output)
    ensures Changed(config, out) == {} <==>
            && IntProp(config, "min_capacity", 0) == out.minCapacity
            && IntProp(config, "max_capacity", 1) == out.maxCapacity
            && NamesKey(PolicyNames(Parsed(config))) == NamesKey(out.policyNames)
            && PolicyConfigFingerprint(config) == (if out.fingerprint.Some? then out.fingerprint.value else "")
            && EncodeProviderID(KeyOf(config)) == out.providerID
  {
    IntTextInjective(IntProp(config, "min_capacity", 0), out.minCapacity);
    IntTextInjective(IntProp(config, "max_capacity", 1), out.maxCapacity);
    var (w, c) := (Wanted(config), Current(out));
    assert w.Keys == {"min_capacity", "max_capacity", "policy_names", "policy_fingerprint", "provider_id"};
    forall k | k in w ensures k in Changed(config, out) <==> c[k] != w[k] {}
    if Changed(config, out) == {} {
      assert "min_capacity" in w && "max_capacity" in w && "policy_names" in w
          && "policy_fingerprint" in w && "provider_id" in w;
    }
  }

  /** A reported change: one of the five compared values, with the value found, the value the
      configuration gives, and the two different. */
  lemma ReportedChanges(config: Props, out: Output, ch: Change)
    ensures ch in ChangesOf(Wanted(config), Current(out)) <==>
            && ch.was != Some(ch.wanted)
            && match ch.path
               case "min_capacity" =>
                 ch.was == Some(IntText(out.minCapacity)) && ch.wanted == IntText(IntProp(config, "min_capacity", 0))
               case "max_capacity" =>
                 ch.was == Some(IntText(out.maxCapacity)) && ch.wanted == IntText(IntProp(config, "max_capacity", 1))
               case "policy_names" =>
                 ch.was == Some(NamesKey(out.policyNames)) && ch.wanted == NamesKey(PolicyNames(Parsed(config)))
               case "policy_fingerprint" =>
                 ch.was == Some(if out.fingerprint.Some? then out.fingerprint.value else "")
                 && ch.wanted == PolicyConfigFingerprint(config)
               case "provider_id" =>
                 ch.was == Some(out.providerID) && ch.wanted == EncodeProviderID(KeyOf(config))
               case _ => false
  {
    var (w, c) := (Wanted(config), Current(out));
    assert w.Keys == c.Keys == {"min_capacity", "max_capacity", "policy_names", "policy_fingerprint", "provider_id"};
    assert ch in ChangesOf(w, c) <==> ch.path in w && ch.was == Lookup(c, ch.path) && ch.wanted == w[ch.path] && ch.was != Some(ch.wanted);
  }

  /** A validated capacity reads the same under any default. */
  lemma CapacityReads(config: Props)
    requires ValidateCapacity(config).Some?
    ensures var (lo, hi) := (IntProp(config, "min_capacity", 0), IntProp(config, "max_capacity", 1));
            0 <= lo <= hi && ValidateCapacity(config).value == (ToInt32(lo), ToInt32(hi))
  {
  }

  lemma ConvergeOutput(c: Cloud, config: Props)
    ensures var made := Converge(c, config).1; var capacity := ValidateCapacity(config);
            made.Some? ==>
              capacity.Some? && made.value ==
              Output(EncodeProviderID(KeyOf(config)), capacity.value.0, capacity.value.1,
                     PolicyNames(Parsed(config)), Some(PolicyConfigFingerprint(config)))
  {
  }

  /** A spec differs from the output of its own successful Create or Update exactly when its
      maximum capacity does not fit an int32. */
  lemma DiffAfterConverge(c: Cloud, config: Props)
    ensures var made := Converge(c, config).1;
            made.Some? ==> (Changed(config, made.value) == {} <==> IntProp(config, "max_capacity", 1) < 0x8000_0000)
  {
    var made := Converge(c, config).1;
    if made.Some? {
      ConvergeOutput(c, config);
      CapacityReads(config);
      ChangedIs(config, made.value);
    }
  }

  ghost predicate DistinctPolicies(ps: seq<PolicySpec>) {
    forall i, j :: 0 <= i < j < |ps| ==> ps[i].name != ps[j].name
  }

  lemma NamesIgnoreOrder(ps: seq<PolicySpec>, qs: seq<PolicySpec>)
    requires multiset(ps) == multiset(qs)
    ensures NamesKey(PolicyNames(ps)) == NamesKey(PolicyNames(qs))
  {
    Mapping.MapPermutes(ps, qs, PolicyName);
    Sorting.SortIgnoresOrder(PolicyNames(ps), PolicyNames(qs), Itself);
  }

  lemma PrintsIgnoreOrder(ps: seq<PolicySpec>, qs: seq<PolicySpec>)
    requires multiset(ps) == multiset(qs) && DistinctPolicies(ps)
    ensures Fingerprint(EncodeAll(ps)) == Fingerprint(EncodeAll(qs))
  {
    Mapping.MapPermutes(ps, qs, Encode);
    assert DistinctNames(EncodeAll(ps));
    FingerprintIgnoresOrder(EncodeAll(ps), EncodeAll(qs));
  }

  /** For distinctly named policies the verdict does not depend on the order in which they
      are listed, whatever it is compared with. */
  lemma DiffIgnoresOrder(a: Props, b: Props, out: Output)
    requires multiset(Parsed(a)) == multiset(Parsed(b)) && DistinctPolicies(Parsed(a))
    requires KeyOf(a) == KeyOf(b)
    requires IntProp(a, "min_capacity", 0) == IntProp(b, "min_capacity", 0)
    requires IntProp(a, "max_capacity", 1) == IntProp(b, "max_capacity", 1)
    ensures Changed(a, out) == Changed(b, out)
  {
    NamesIgnoreOrder(Parsed(a), Parsed(b));
    PrintsIgnoreOrder(Parsed(a), Parsed(b));
    assert Wanted(a) == Wanted(b);
  }

  lemma FingerprintShows(config: Props)
    ensures PolicyConfigFingerprint(config) == "" <==> Parsed(config) == []
  {
    var es := EncodeAll(Parsed(config));
    var sorted := Sorting.Sort(es, NameOf);
    Sorting.SortCorrect(es, NameOf);
    if es != [] {
      assert |Fields(sorted[0])| >= 2;
      assert |PrintAll(sorted)[0]| >= 1;
    }
  }

  lemma ReadOutput(c: Cloud, key: Key)
    requires Read(c, EncodeProviderID(key)).1.Some? && DecodeProviderID(EncodeProviderID(key)) == key
    ensures var out := Read(c, EncodeProviderID(key)).1.value;
            && key in c.targets && Complete(out.policyNames, c.policies.Keys, key)
            && out == Output(EncodeProviderID(key), c.targets[key].minCapacity, c.targets[key].maxCapacity,
                             out.policyNames, None)
  {
  }

  /** Read output carries no fingerprint: against a Read of what its own Create or Update
      has just made, a spec shows no change exactly when it declares no policies at all and
      its capacity fits. */
  lemma DiffAfterRead(c: Cloud, config: Props)
    requires Free(KeyOf(config).ns, '|') && Free(KeyOf(config).resource, '|')
    ensures var (c1, made) := Converge(c, config); var read := Read(c1, EncodeProviderID(KeyOf(config))).1;
            made.Some? && read.Some? ==>
              (Changed(config, read.value) == {} <==> Parsed(config) == [] && IntProp(config, "max_capacity", 1) < 0x8000_0000)
  {
    var (c1, made) := Converge(c, config);
    var read := Read(c1, EncodeProviderID(KeyOf(config))).1;
    if made.Some? && read.Some? {
      ProviderIDRoundTrip(KeyOf(config));
      ReadShows(c, config, read.value);
    }
  }

  lemma ReadShows(c: Cloud, config: Props, out: Output)
    ensures var (c1, made) := Converge(c, config); var key := KeyOf(config);
            made.Some? && DecodeProviderID(EncodeProviderID(key)) == key && Read(c1, EncodeProviderID(key)).1 == Some(out) ==>
              (Changed(config, out) == {} <==> Parsed(config) == [] && IntProp(config, "max_capacity", 1) < 0x8000_0000)
  {
    var (c1, made) := Converge(c, config);
    var key := KeyOf(config);
    if made.Some? && DecodeProviderID(EncodeProviderID(key)) == key && Read(c1, EncodeProviderID(key)).1 == Some(out) {
      ConvergeOutput(c, config);
      CapacityReads(config);
      ConvergeEffect(c, config);
      ReadOutput(c1, key);
      ChangedIs(config, out);
      FingerprintShows(config);
      ListedIsLive(out.policyNames, c1.policies, key);
    }
  }

  lemma ListedIsLive(names: seq<string>, policies: map<PolicyID, Payload>, key: Key)
    requires Complete(names, policies.Keys, key)
    ensures names != [] ==> PolicyID(key, names[0]) in Of(policies, key)
  {
    if names != [] {
      assert PolicyID(key, names[0]) in set n | n in names :: PolicyID(key, n);
    }
  }
}
