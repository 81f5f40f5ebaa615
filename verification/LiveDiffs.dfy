/**
What a diff says about what is live. The fingerprint leaves out the interval bounds of steps
and rounds targets to the hundredth, and no compared value shows the role; so policies that
print alike need not be alike when they are put.
*/
module LiveDiffs {
  import opened Wrappers
  import opened Config
  import opened Policies
  import opened AutoScaling
  import opened Reconciliation
  import opened Diffing
  import opened Printing
  import opened PrintedLists
  import opened Fingerprints
  import opened FooledDiffs
  import opened Text
  import Mapping
  import Sorting

  /* ----- what is sent but not printed ----- */

  datatype Hidden =
    | Nothing
    | TargetValue(target: real)
    | Bounds(lowers: seq<Option<real>>, uppers: seq<Option<real>>)

  function LowerOf(s: Step): Option<real> { s.lower }

  function UpperOf(s: Step): Option<real> { s.upper }

  function HiddenOf(p: PolicySpec): Hidden {
    if p.kind == "TargetTrackingScaling" then TargetValue(p.target)
    else if p.kind == "StepScaling" then Bounds(Mapping.Map(p.steps, LowerOf), Mapping.Map(p.steps, UpperOf))
    else Nothing
  }

  lemma StepsDecide(ss: seq<Step>, ts: seq<Step>)
    requires |ss| == |ts| && forall i | 0 <= i < |ss| :: ss[i].adjustment == ts[i].adjustment
    requires Mapping.Map(ss, LowerOf) == Mapping.Map(ts, LowerOf) && Mapping.Map(ss, UpperOf) == Mapping.Map(ts, UpperOf)
    ensures ss == ts
  {
    forall i | 0 <= i < |ss| ensures ss[i] == ts[i] {
      assert LowerOf(ss[i]) == Mapping.Map(ss, LowerOf)[i] && UpperOf(ss[i]) == Mapping.Map(ss, UpperOf)[i];
      assert LowerOf(ts[i]) == Mapping.Map(ts, LowerOf)[i] && UpperOf(ts[i]) == Mapping.Map(ts, UpperOf)[i];
    }
  }

  lemma AdjustmentsShow(p: PolicySpec, q: PolicySpec)
    requires p.kind == "StepScaling" && q.kind == "StepScaling" && Encode(p) == Encode(q)
    ensures |p.steps| == |q.steps| && forall i | 0 <= i < |p.steps| :: p.steps[i].adjustment == q.steps[i].adjustment
  {
    var (xs, ys) := (Encode(p).adjustments, Encode(q).adjustments);
    assert |xs| == |p.steps| && |ys| == |q.steps|;
    assert forall i | 0 <= i < |xs| :: xs[i] == p.steps[i].adjustment && ys[i] == q.steps[i].adjustment;
  }

  lemma KindsAgree(p: PolicySpec, q: PolicySpec)
    requires Encode(p) == Encode(q)
    ensures p.name == q.name && p.kind == q.kind
  {
  }

  /** Policies that print alike are put alike exactly when they agree on the rest. */
  lemma PayloadIff(p: PolicySpec, q: PolicySpec)
    requires Encode(p) == Encode(q) && PayloadOf(p).Some?
    ensures PayloadOf(p) == PayloadOf(q) <==> HiddenOf(p) == HiddenOf(q)
  {
    KindsAgree(p, q);
    if p.kind == "StepScaling" {
      AdjustmentsShow(p, q);
      if HiddenOf(p) == HiddenOf(q) { StepsDecide(p.steps, q.steps); }
    }
  }

  /** What is put under a name shows everything that is printed. */
  lemma PayloadPrints(p: PolicySpec, q: PolicySpec)
    requires p.name == q.name && PayloadOf(p).Some? && PayloadOf(p) == PayloadOf(q)
    ensures Encode(p) == Encode(q)
  {
  }

  /* ----- policies by name ----- */

  /** Policies of one name agree on what is not printed. */
  predicate SameHidden(ps: seq<PolicySpec>, qs: seq<PolicySpec>) {
    forall p, q | p in ps && q in qs && p.name == q.name :: HiddenOf(p) == HiddenOf(q)
  }

  lemma {:induction false} AskedAt(key: Key, ps: seq<PolicySpec>, k: nat)
    requires DistinctPolicies(ps) && k < |ps|
    ensures Lookup(Asked(key, ps), PolicyID(key, ps[k].name)) == PayloadOf(ps[k])
  {
    var id := PolicyID(key, ps[k].name);
    if k > 0 {
      AskedAt(key, ps[1..], k - 1);
    } else {
      AskedNames(key, ps[1..]);
      assert id !in IDs(key, PolicyNames(ps[1..])) by { OtherNames(ps); }
    }
  }

  lemma OtherNames(ps: seq<PolicySpec>)
    requires DistinctPolicies(ps) && ps != []
    ensures ps[0].name !in PolicyNames(ps[1..])
  {
    forall i | 0 <= i < |ps[1..]| ensures PolicyNames(ps[1..])[i] != ps[0].name { assert ps[1..][i] == ps[i + 1]; }
  }

  lemma AskedFor(key: Key, ps: seq<PolicySpec>, p: PolicySpec)
    requires DistinctPolicies(ps) && p in ps
    ensures Lookup(Asked(key, ps), PolicyID(key, p.name)) == PayloadOf(p)
  {
    var k :| 0 <= k < |ps| && ps[k] == p;
    AskedAt(key, ps, k);
  }

  lemma NobodyAsks(key: Key, ps: seq<PolicySpec>, id: PolicyID)
    requires forall p | p in ps :: id != PolicyID(key, p.name)
    ensures id !in Asked(key, ps)
  {
    AskedNames(key, ps);
    forall n | n in PolicyNames(ps) ensures id != PolicyID(key, n) {
      var i :| 0 <= i < |ps| && PolicyNames(ps)[i] == n;
      assert ps[i] in ps;
    }
    assert id !in IDs(key, PolicyNames(ps));
  }

  lemma SameName(ps: seq<PolicySpec>, p: PolicySpec, q: PolicySpec)
    requires DistinctPolicies(ps) && p in ps && q in ps && p.name == q.name
    ensures p == q
  {
  }

  /** Lists that print the same policies have a policy that prints alike for each other's. */
  lemma Partner(ps: seq<PolicySpec>, qs: seq<PolicySpec>, p: PolicySpec) returns (q: PolicySpec)
    requires multiset(EncodeAll(ps)) == multiset(EncodeAll(qs)) && p in ps
    ensures q in qs && Encode(q) == Encode(p)
  {
    var i :| 0 <= i < |ps| && ps[i] == p;
    assert EncodeAll(ps)[i] in multiset(EncodeAll(ps));
    var j :| 0 <= j < |EncodeAll(qs)| && EncodeAll(qs)[j] == Encode(p);
    q := qs[j];
  }

  lemma NamesakesPrintAlike(ps: seq<PolicySpec>, qs: seq<PolicySpec>, p: PolicySpec, q: PolicySpec)
    requires multiset(EncodeAll(ps)) == multiset(EncodeAll(qs)) && DistinctPolicies(qs)
    requires p in ps && q in qs && p.name == q.name
    ensures Encode(p) == Encode(q)
  {
    var q' := Partner(ps, qs, p);
    KindsAgree(p, q');
    SameName(qs, q, q');
  }

  lemma SameLookups(m: map<PolicyID, Payload>, n: map<PolicyID, Payload>)
    requires forall id :: Lookup(m, id) == Lookup(n, id)
    ensures m == n
  {
    assert forall id | id in m :: Lookup(n, id) == Lookup(m, id);
    assert forall id | id in n :: Lookup(m, id) == Lookup(n, id);
  }

  /** Accepted lists that print the same policies ask for the same policies exactly when
      those of one name agree on what is not printed. */
  lemma AskedAgreeIff(key: Key, ps: seq<PolicySpec>, qs: seq<PolicySpec>)
    requires DistinctPolicies(ps) && DistinctPolicies(qs) && multiset(EncodeAll(ps)) == multiset(EncodeAll(qs))
    requires forall p | p in ps :: PayloadOf(p).Some?
    ensures Asked(key, ps) == Asked(key, qs) <==> SameHidden(ps, qs)
  {
    forall p, q | p in ps && q in qs && p.name == q.name
      ensures Lookup(Asked(key, ps), PolicyID(key, p.name)) == Lookup(Asked(key, qs), PolicyID(key, p.name))
              <==> HiddenOf(p) == HiddenOf(q)
    {
      AskedFor(key, ps, p);
      AskedFor(key, qs, q);
      NamesakesPrintAlike(ps, qs, p, q);
      PayloadIff(p, q);
    }
    if SameHidden(ps, qs) {
      forall id ensures Lookup(Asked(key, ps), id) == Lookup(Asked(key, qs), id) { AgreeAt(key, ps, qs, id); }
      SameLookups(Asked(key, ps), Asked(key, qs));
    }
  }

  lemma AgreeAt(key: Key, ps: seq<PolicySpec>, qs: seq<PolicySpec>, id: PolicyID)
    requires DistinctPolicies(ps) && DistinctPolicies(qs) && multiset(EncodeAll(ps)) == multiset(EncodeAll(qs))
    requires SameHidden(ps, qs) && forall p | p in ps :: PayloadOf(p).Some?
    ensures Lookup(Asked(key, ps), id) == Lookup(Asked(key, qs), id)
  {
    if p :| p in ps && id == PolicyID(key, p.name) {
      var q := Partner(ps, qs, p);
      KindsAgree(p, q);
      AskedFor(key, ps, p);
      AskedFor(key, qs, q);
      PayloadIff(p, q);
    } else {
      NobodyAsks(key, ps, id);
      forall q | q in qs ensures id != PolicyID(key, q.name) {
        var p := Partner(qs, ps, q);
        KindsAgree(p, q);
      }
      NobodyAsks(key, qs, id);
    }
  }

  /* ----- and back: what is asked for shows what is printed ----- */

  ghost predicate NoRepeats<T>(xs: seq<T>) { forall i, j | 0 <= i < j < |xs| :: xs[i] != xs[j] }

  lemma {:induction false} OnceEach<T>(xs: seq<T>)
    requires NoRepeats(xs)
    ensures forall x :: multiset(xs)[x] <= 1
  {
    if xs != [] {
      OnceEach(xs[1..]);
      assert xs == [xs[0]] + xs[1..];
      assert xs[0] !in xs[1..];
    }
  }

  lemma Twice<T>(xs: seq<T>, i: nat, j: nat)
    requires i < j < |xs| && xs[i] == xs[j]
    ensures multiset(xs)[xs[i]] >= 2
  {
    assert xs == xs[..j] + [xs[j]] + xs[j + 1..];
    assert xs[i] in xs[..j];
  }

  lemma PrintsDistinct(ps: seq<PolicySpec>)
    requires DistinctPolicies(ps)
    ensures NoRepeats(EncodeAll(ps)) && NoRepeats(PolicyNames(ps))
  {
    forall i, j | 0 <= i < j < |EncodeAll(ps)| ensures EncodeAll(ps)[i] != EncodeAll(ps)[j] {
      assert ps[i].name != ps[j].name;
    }
  }

  lemma NamesOfPrints(ps: seq<PolicySpec>)
    ensures Mapping.Map(EncodeAll(ps), NameOf) == PolicyNames(ps)
  {
  }

  /** Distinct names show in what is printed. */
  lemma DistinctCarries(ps: seq<PolicySpec>, qs: seq<PolicySpec>)
    requires DistinctPolicies(ps) && multiset(EncodeAll(ps)) == multiset(EncodeAll(qs))
    ensures DistinctPolicies(qs)
  {
    Mapping.MapPermutes(EncodeAll(ps), EncodeAll(qs), NameOf);
    NamesOfPrints(ps);
    NamesOfPrints(qs);
    PrintsDistinct(ps);
    OnceEach(PolicyNames(ps));
    forall i, j | 0 <= i < j < |qs| ensures qs[i].name != qs[j].name {
      if PolicyNames(qs)[i] == PolicyNames(qs)[j] { Twice(PolicyNames(qs), i, j); }
    }
  }

  /** A policy asked for under a name is put by the other list's policy of that name. */
  lemma AskedPartner(key: Key, ps: seq<PolicySpec>, qs: seq<PolicySpec>, p: PolicySpec) returns (q: PolicySpec)
    requires DistinctPolicies(ps) && DistinctPolicies(qs) && Asked(key, ps) == Asked(key, qs)
    requires p in ps && PayloadOf(p).Some?
    ensures q in qs && Encode(q) == Encode(p)
  {
    AskedFor(key, ps, p);
    var id := PolicyID(key, p.name);
    AskedNames(key, qs);
    assert id in IDs(key, PolicyNames(qs));
    var j :| 0 <= j < |PolicyNames(qs)| && PolicyNames(qs)[j] == p.name;
    q := qs[j];
    AskedAt(key, qs, j);
    PayloadPrints(p, q);
  }

  lemma EncodedIn(ps: seq<PolicySpec>, p: PolicySpec)
    requires p in ps
    ensures Encode(p) in multiset(EncodeAll(ps))
  {
    var i :| 0 <= i < |ps| && ps[i] == p;
    assert EncodeAll(ps)[i] == Encode(p);
  }

  lemma PrintsWithin(key: Key, ps: seq<PolicySpec>, qs: seq<PolicySpec>)
    requires DistinctPolicies(ps) && DistinctPolicies(qs) && Asked(key, ps) == Asked(key, qs)
    requires forall p | p in ps :: PayloadOf(p).Some?
    ensures multiset(EncodeAll(ps)) <= multiset(EncodeAll(qs))
  {
    PrintsDistinct(ps);
    OnceEach(EncodeAll(ps));
    forall e | e in multiset(EncodeAll(ps)) ensures e in multiset(EncodeAll(qs)) {
      var i :| 0 <= i < |EncodeAll(ps)| && EncodeAll(ps)[i] == e;
      var q := AskedPartner(key, ps, qs, ps[i]);
      EncodedIn(qs, q);
    }
  }

  lemma AskedDecides(key: Key, ps: seq<PolicySpec>, qs: seq<PolicySpec>)
    requires DistinctPolicies(ps) && DistinctPolicies(qs) && Asked(key, ps) == Asked(key, qs)
    requires forall p | p in ps :: PayloadOf(p).Some?
    requires forall q | q in qs :: PayloadOf(q).Some?
    ensures multiset(EncodeAll(ps)) == multiset(EncodeAll(qs))
  {
    PrintsWithin(key, ps, qs);
    PrintsWithin(key, qs, ps);
  }

  /* ----- what a configuration demands ----- */

  /** The target and policies that applying a configuration brings about. */
  datatype Demand = Demand(key: Key, target: AutoScaling.Target, policies: map<PolicyID, Payload>)

  function DemandOf(config: Props): Option<Demand> {
    if !Feasible(config) then None
    else
      var (lo, hi) := ValidateCapacity(config).value;
      Some(Demand(KeyOf(config), AutoScaling.Target(lo, hi, StrProp(config, "role_arn")), Asked(KeyOf(config), Parsed(config))))
  }

  lemma DemandIsMet(c: Cloud, config: Props)
    requires Converge(c, config).1.Some?
    ensures DemandOf(config).Some? && DemandOf(config).value.key == KeyOf(config)
    ensures var (c', d) := (Converge(c, config).0, DemandOf(config).value);
            Lookup(c'.targets, d.key) == Some(d.target) && Of(c'.policies, d.key) == d.policies
  {
    ConvergeEffect(c, config);
    ConvergeOutput(c, config);
  }

  lemma SamePolicies(p0: map<PolicyID, Payload>, p1: map<PolicyID, Payload>, key: Key)
    requires Of(p0, key) == Of(p1, key)
    requires forall id: PolicyID | id.key != key :: Lookup(p1, id) == Lookup(p0, id)
    ensures p0 == p1
  {
    forall id: PolicyID ensures Lookup(p0, id) == Lookup(p1, id) {
      if id.key == key { assert Lookup(Of(p0, key), id) == Lookup(Of(p1, key), id); }
    }
    SameLookups(p0, p1);
  }

  /** Applying one configuration after another for the same target leaves everything as it
      was exactly when both demand the same. */
  lemma ReapplyIff(c: Cloud, a: Props, b: Props)
    requires KeyOf(a) == KeyOf(b) && Converge(c, a).1.Some? && Converge(Converge(c, a).0, b).1.Some?
    ensures var c1 := Converge(c, a).0; var c2 := Converge(c1, b).0;
            c2.targets == c1.targets && c2.policies == c1.policies <==> DemandOf(a) == DemandOf(b)
  {
    var c1 := Converge(c, a).0;
    var c2 := Converge(c1, b).0;
    DemandIsMet(c, a);
    DemandIsMet(c1, b);
    ConvergeEffect(c1, b);
    if DemandOf(a) == DemandOf(b) { SamePolicies(c1.policies, c2.policies, KeyOf(a)); }
  }

  /* ----- what no change means ----- */

  /** What a diff does not look at, or not closely. */
  predicate SameUnseen(a: Props, b: Props) {
    && KeyOf(a) == KeyOf(b) && StrProp(a, "role_arn") == StrProp(b, "role_arn")
    && ValidateCapacity(b).Some? && Parse(b).Ok? && SameHidden(Parsed(a), Parsed(b))
  }

  lemma CapacityAgrees(a: Props, b: Props)
    requires ValidateCapacity(a).Some? && ValidateCapacity(b).Some?
    ensures ValidateCapacity(a) == ValidateCapacity(b) && IntProp(b, "max_capacity", 1) < 0x8000_0000 <==>
            ValidateCapacity(a) == Some((IntProp(b, "min_capacity", 0), IntProp(b, "max_capacity", 1)))
  {
    CapacityReads(a);
    CapacityReads(b);
  }

  lemma AlikeIsAccepted(ps: seq<PolicySpec>, qs: seq<PolicySpec>)
    requires DistinctPolicies(qs) && multiset(EncodeAll(ps)) == multiset(EncodeAll(qs)) && SameHidden(ps, qs)
    requires forall p | p in ps :: PayloadOf(p).Some?
    ensures forall q | q in qs :: PayloadOf(q).Some?
  {
    forall q | q in qs ensures PayloadOf(q).Some? {
      var p := Partner(qs, ps, q);
      KindsAgree(p, q);
      PayloadIff(p, q);
    }
  }

  /** After `a` was applied, `b` demands the same and fits an int32 exactly when no change is
      shown and the two agree on what a diff does not see. */
  lemma NoChangeIff(c: Cloud, a: Props, b: Props, avoid: set<char>)
    requires TellsApart(avoid) && Comparable(c, a, b, avoid)
    requires DistinctPolicies(Parsed(a)) && DistinctPolicies(Parsed(b))
    ensures DemandOf(a) == DemandOf(b) && IntProp(b, "max_capacity", 1) < 0x8000_0000 <==>
            Changed(b, Converge(c, a).1.value) == {} && SameUnseen(a, b)
  {
    DiffExact(c, a, b, avoid);
    DemandIsMet(c, a);
    var (ps, qs) := (Parsed(a), Parsed(b));
    if Feasible(b) {
      CapacityAgrees(a, b);
      if Asked(KeyOf(a), ps) == Asked(KeyOf(a), qs) { AskedDecides(KeyOf(a), ps, qs); }
    }
    if multiset(Encodings(a)) == multiset(Encodings(b)) {
      AskedAgreeIff(KeyOf(a), ps, qs);
      if SameUnseen(a, b) {
        AlikeIsAccepted(ps, qs);
        CapacityAgrees(a, b);
      }
    }
  }

  /** So when a diff shows no change, applying the spec changes nothing exactly when role,
      targets and interval bounds are the same. */
  lemma QuietDiffIff(c: Cloud, a: Props, b: Props, avoid: set<char>)
    requires TellsApart(avoid) && Comparable(c, a, b, avoid) && KeyOf(a) == KeyOf(b) && DistinctPolicies(Parsed(a))
    requires Changed(b, Converge(c, a).1.value) == {} && Converge(Converge(c, a).0, b).1.Some?
    ensures var c1 := Converge(c, a).0; var c2 := Converge(c1, b).0;
            c2.targets == c1.targets && c2.policies == c1.policies <==>
            StrProp(a, "role_arn") == StrProp(b, "role_arn") && SameHidden(Parsed(a), Parsed(b))
  {
    DiffExact(c, a, b, avoid);
    DistinctCarries(Parsed(a), Parsed(b));
    NoChangeIff(c, a, b, avoid);
    ReapplyIff(c, a, b);
    DemandIsMet(Converge(c, a).0, b);
    ConvergeEffect(Converge(c, a).0, b);
    CapacityAgrees(a, b);
  }

  /* ----- the exact class of configurations ----- */

  /** A whole number of hundredths, as the fingerprint prints it. */
  predicate WholeHundredths(r: real) { Hundredths(r) as real == r * 100.0 }

  predicate Unbounded(steps: seq<Step>) { forall s | s in steps :: s.lower.None? && s.upper.None? }

  /** Policies whose steps have interval bounds, or whose targets have fractions of a
      hundredth, only if that is allowed. */
  predicate Within(ps: seq<PolicySpec>, bounds: bool, fractions: bool) {
    forall p | p in ps ::
      && (p.kind == "StepScaling" ==> bounds || Unbounded(p.steps))
      && (p.kind == "TargetTrackingScaling" ==> fractions || WholeHundredths(p.target))
  }

  /** For one target, no two configurations of some class, the first applied, show no change
      while they ask for different policies. */
  ghost predicate DiffTellsLive(avoid: set<char>, bounds: bool, fractions: bool) {
    forall c: Cloud, a: Props, b: Props |
      && Comparable(c, a, b, avoid) && KeyOf(a) == KeyOf(b) && DistinctPolicies(Parsed(a))
      && Within(Parsed(a), bounds, fractions) && Within(Parsed(b), bounds, fractions)
      && Changed(b, Converge(c, a).1.value) == {} ::
      Asked(KeyOf(a), Parsed(a)) == Asked(KeyOf(b), Parsed(b))
  }

  lemma UnboundedSteps(steps: seq<Step>)
    requires Unbounded(steps)
    ensures Mapping.Map(steps, LowerOf) == seq(|steps|, _ => None) && Mapping.Map(steps, UpperOf) == seq(|steps|, _ => None)
  {
    forall i | 0 <= i < |steps| ensures LowerOf(steps[i]) == None && UpperOf(steps[i]) == None { assert steps[i] in steps; }
  }

  lemma NothingHidden(p: PolicySpec, q: PolicySpec)
    requires Encode(p) == Encode(q) && Within([p], false, false) && Within([q], false, false)
    ensures HiddenOf(p) == HiddenOf(q)
  {
    assert p in [p] && q in [q];
    KindsAgree(p, q);
    if p.kind == "StepScaling" {
      AdjustmentsShow(p, q);
      UnboundedSteps(p.steps);
      UnboundedSteps(q.steps);
    }
  }

  lemma AllShown(ps: seq<PolicySpec>, qs: seq<PolicySpec>)
    requires DistinctPolicies(qs) && multiset(EncodeAll(ps)) == multiset(EncodeAll(qs))
    requires Within(ps, false, false) && Within(qs, false, false)
    ensures SameHidden(ps, qs)
  {
    forall p, q | p in ps && q in qs && p.name == q.name ensures HiddenOf(p) == HiddenOf(q) {
      NamesakesPrintAlike(ps, qs, p, q);
      NothingHidden(p, q);
    }
  }

  lemma {:induction false} ParsedAreNamed(items: seq<Value>)
    ensures ParseItems(items).Ok? ==> forall p | p in ParseItems(items).value :: p.name != ""
  {
    if items != [] { ParsedAreNamed(items[1..]); }
  }

  lemma NameSpelled(ps: seq<PolicySpec>, p: PolicySpec, avoid: set<char>)
    requires AllSpelled(EncodeAll(ps), avoid) && p in ps
    ensures Avoids(p.name, avoid)
  {
    var i :| 0 <= i < |ps| && ps[i] == p;
    assert EncodeAll(ps)[i] in EncodeAll(ps);
    assert Spelled(Encode(p), avoid) && Encode(p).name == p.name;
  }

  lemma FirstAvoided(s: string, avoid: set<char>)
    requires s != "" && Avoids(s, avoid)
    ensures s[0] !in avoid
  {
  }

  lemma EverythingAvoided(s: string, avoid: set<char>)
    requires (forall ch: char :: ch in avoid) && Avoids(s, avoid)
    ensures s == ""
  {
    if s != "" { FirstAvoided(s, avoid); }
  }

  /** Strings that avoid every character leave no policy. */
  lemma NothingSpelled(config: Props, avoid: set<char>)
    requires (forall ch: char :: ch in avoid) && AllSpelled(Encodings(config), avoid)
    ensures Parsed(config) == []
  {
    forall p | p in Parsed(config) ensures p.name == "" {
      NameSpelled(Parsed(config), p, avoid);
      EverythingAvoided(p.name, avoid);
    }
    assert Parsed(config) != [] ==> Parsed(config)[0] in Parsed(config);
    if "policies" in config && config["policies"].List? { ParsedAreNamed(config["policies"].items); }
  }

  lemma ClassIsSeen(c: Cloud, a: Props, b: Props, avoid: set<char>)
    requires TellsApart(avoid) && Comparable(c, a, b, avoid) && KeyOf(a) == KeyOf(b) && DistinctPolicies(Parsed(a))
    requires Within(Parsed(a), false, false) && Within(Parsed(b), false, false)
    requires Changed(b, Converge(c, a).1.value) == {}
    ensures Asked(KeyOf(a), Parsed(a)) == Asked(KeyOf(b), Parsed(b))
  {
    DiffExact(c, a, b, avoid);
    DistinctCarries(Parsed(a), Parsed(b));
    AllShown(Parsed(a), Parsed(b));
    DemandIsMet(c, a);
    AskedAgreeIff(KeyOf(a), Parsed(a), Parsed(b));
  }

  /* ----- configurations that look alike ----- */

  lemma OneParsed(v: Value, p: PolicySpec)
    requires ParsePolicy(v) == Ok(p) && p.name != ""
    ensures Parse(ConfigOf([v])) == Ok([p]) && Parsed(ConfigOf([v])) == [p] && Encodings(ConfigOf([v])) == [Encode(p)]
  {
    OneParses(v, p, [], []);
    assert [v] + [] == [v] && [p] + [] == [p];
    Settings([v]);
  }

  lemma OneAccepted(v: Value, p: PolicySpec, avoid: set<char>)
    requires ParsePolicy(v) == Ok(p) && p.name != "" && PayloadOf(p).Some? && Spelled(Encode(p), avoid)
    ensures var config := ConfigOf([v]);
            && Parsed(config) == [p] && Encodings(config) == [Encode(p)]
            && AllPlain(Encodings(config)) && AllSpelled(Encodings(config), avoid)
            && Feasible(config) && Converge(Willing(), config).1.Some?
  {
    OneParsed(v, p);
    Settings([v]);
    WillingConverges(ConfigOf([v]));
  }

  /** Two policies that print alike, each the only one of its configuration: both can be
      applied, and after the one was, the other shows no change. */
  lemma TwinsUnseen(v: Value, p: PolicySpec, w: Value, q: PolicySpec, avoid: set<char>)
    requires ParsePolicy(v) == Ok(p) && ParsePolicy(w) == Ok(q) && p.name != "" && Encode(p) == Encode(q)
    requires PayloadOf(p).Some? && PayloadOf(q).Some? && Spelled(Encode(p), avoid)
    ensures var (a, b) := (ConfigOf([v]), ConfigOf([w]));
            && Comparable(Willing(), a, b, avoid) && KeyOf(a) == KeyOf(b) && Feasible(b)
            && Changed(b, Converge(Willing(), a).1.value) == {}
  {
    KindsAgree(p, q);
    OneAccepted(v, p, avoid);
    OneAccepted(w, q, avoid);
    Settings([v]);
    Settings([w]);
    ChangedAfter(Willing(), ConfigOf([v]), ConfigOf([w]));
    assert PolicyNames([p]) == PolicyNames([q]);
  }

  lemma TwinsDiffer(key: Key, p: PolicySpec, q: PolicySpec)
    requires Encode(p) == Encode(q) && PayloadOf(p).Some? && HiddenOf(p) != HiddenOf(q)
    ensures Asked(key, [p]) != Asked(key, [q])
  {
    KindsAgree(p, q);
    AskedAt(key, [p], 0);
    AskedAt(key, [q], 0);
    PayloadIff(p, q);
  }

  lemma TwinsRefute(v: Value, p: PolicySpec, w: Value, q: PolicySpec, avoid: set<char>, bounds: bool, fractions: bool)
    requires ParsePolicy(v) == Ok(p) && ParsePolicy(w) == Ok(q) && p.name != "" && Encode(p) == Encode(q)
    requires PayloadOf(p).Some? && PayloadOf(q).Some? && Spelled(Encode(p), avoid) && HiddenOf(p) != HiddenOf(q)
    requires Within([p], bounds, fractions) && Within([q], bounds, fractions)
    ensures !DiffTellsLive(avoid, bounds, fractions)
  {
    KindsAgree(p, q);
    OneParsed(v, p);
    OneParsed(w, q);
    TwinsUnseen(v, p, w, q, avoid);
    TwinsDiffer(KeyOf(ConfigOf([v])), p, q);
  }

  lemma SteppersPrintAlike(name: string, adjustmentType: string, lower: Option<real>, lower': Option<real>, n: nat)
    ensures var (p, q) := (Stepper(name, adjustmentType, lower, n), Stepper(name, adjustmentType, lower', n));
            Encode(p) == Encode(q) && (lower != lower' ==> HiddenOf(p) != HiddenOf(q))
  {
    var (p, q) := (Stepper(name, adjustmentType, lower, n), Stepper(name, adjustmentType, lower', n));
    assert Encode(p).adjustments == [n] && Encode(q).adjustments == [n];
    assert Mapping.Map(p.steps, LowerOf)[0] == lower && Mapping.Map(q.steps, LowerOf)[0] == lower';
  }

  lemma StepperFits(ch: char, lower: Option<real>, avoid: set<char>, fractions: bool)
    requires ch !in avoid
    ensures var p := Stepper([ch], [ch], lower, 1);
            PayloadOf(p).Some? && Spelled(Encode(p), avoid) && Within([p], true, fractions)
  {
  }

  /** A step's interval bound is not seen. */
  lemma BoundUnseen(ch: char, avoid: set<char>, fractions: bool)
    requires ch !in avoid
    ensures !DiffTellsLive(avoid, true, fractions)
  {
    var p := Stepper([ch], [ch], None, 1);
    var q := Stepper([ch], [ch], Some(10.0), 1);
    StepItemParses([ch], [ch], None, 1);
    StepItemParses([ch], [ch], Some(10.0), 1);
    SteppersPrintAlike([ch], [ch], None, Some(10.0), 1);
    StepperFits(ch, None, avoid, fractions);
    StepperFits(ch, Some(10.0), avoid, fractions);
    TwinsRefute(StepItem([ch], [ch], None, 1), p, StepItem([ch], [ch], Some(10.0), 1), q, avoid, true, fractions);
  }

  /** Nor is a difference of a thousandth in a target. */
  lemma FractionUnseen(ch: char, avoid: set<char>, bounds: bool)
    requires ch !in avoid
    ensures !DiffTellsLive(avoid, bounds, true)
  {
    var p := Tracker([ch], [ch], 5.0, 1);
    var q := Tracker([ch], [ch], 5.001, 1);
    TrackItemParses([ch], [ch], 5.0, 1);
    TrackItemParses([ch], [ch], 5.001, 1);
    assert Hundredths(5.0) == 500 && Hundredths(5.001) == 500;
    TwinsRefute(TrackItem([ch], [ch], 5.0, 1), p, TrackItem([ch], [ch], 5.001, 1), q, avoid, bounds, true);
  }

  /** If enough is avoided, no change shown means the same policies asked for exactly over
      configurations without interval bounds whose targets are whole hundredths (or if every
      character is avoided, which leaves no policy to name). With bounds or fractions nothing
      that is avoided helps. */
  lemma DiffTellsLiveIff(avoid: set<char>, bounds: bool, fractions: bool)
    requires TellsApart(avoid) || bounds || fractions
    ensures DiffTellsLive(avoid, bounds, fractions) <==> (!bounds && !fractions) || forall ch: char :: ch in avoid
  {
    if ch: char :| ch !in avoid {
      if bounds {
        BoundUnseen(ch, avoid, fractions);
      } else if fractions {
        FractionUnseen(ch, avoid, bounds);
      }
    }
    forall c: Cloud, a: Props, b: Props |
      && Comparable(c, a, b, avoid) && KeyOf(a) == KeyOf(b) && DistinctPolicies(Parsed(a))
      && Within(Parsed(a), bounds, fractions) && Within(Parsed(b), bounds, fractions)
      && Changed(b, Converge(c, a).1.value) == {} && ((!bounds && !fractions) || forall ch: char :: ch in avoid)
      ensures Asked(KeyOf(a), Parsed(a)) == Asked(KeyOf(b), Parsed(b))
    {
      if bounds || fractions {
        NothingSpelled(a, avoid);
        NothingSpelled(b, avoid);
      } else {
        ClassIsSeen(c, a, b, avoid);
      }
    }
  }
}
