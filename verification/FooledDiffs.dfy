/** Configurations that Create accepts and whose policies print alike although what is printed
    of them differs, unless enough characters are kept out of their strings. */
module FooledDiffs {
  import opened Wrappers
  import opened Config
  import opened Policies
  import opened AutoScaling
  import opened Reconciliation
  import opened Diffing
  import opened Printing
  import opened PrintedLists
  import opened Fingerprints
  import opened Text
  import Sorting

  /* ----- configurations with given policies ----- */

  function Target(n: nat): real { if n == 0 then 0.001 else (111 * n) as real / 100.0 }

  function StepMap(lower: Option<real>, n: nat): Props {
    if lower.None? then map["scaling_adjustment" := Int(n)]
    else map["scaling_adjustment" := Int(n), "metric_interval_lower_bound" := Float(lower.value)]
  }

  function StepItem(name: string, adjustmentType: string, lower: Option<real>, n: nat): Value {
    Map(map["policy_name" := Str(name), "policy_type" := Str("StepScaling"),
            "adjustment_type" := Str(adjustmentType), "cooldown" := Int(n),
            "step_adjustments" := List([Map(StepMap(lower, n))])])
  }

  function TrackItem(name: string, metric: string, target: real, n: nat): Value {
    Map(map["policy_name" := Str(name), "policy_type" := Str("TargetTrackingScaling"),
            "target_value" := Float(target), "predefined_metric_type" := Str(metric),
            "scale_in_cooldown" := Int(n), "scale_out_cooldown" := Int(n)])
  }

  function Item(track: bool, name: string, mid: string, n: nat): Value {
    if track then TrackItem(name, mid, Target(n), n) else StepItem(name, mid, None, n)
  }

  function Stepper(name: string, adjustmentType: string, lower: Option<real>, n: nat): PolicySpec {
    PolicySpec(name, "StepScaling", 0.0, "", 300, 300, adjustmentType, [Step(lower, None, n)], n)
  }

  function Tracker(name: string, metric: string, target: real, n: nat): PolicySpec {
    PolicySpec(name, "TargetTrackingScaling", target, metric, n, n, "", [], 300)
  }

  function Policy(track: bool, name: string, mid: string, n: nat): PolicySpec {
    if track then Tracker(name, mid, Target(n), n) else Stepper(name, mid, None, n)
  }

  function Proto(track: bool, n: nat): Encoded {
    if track then Tracking("", 111 * n, "", n, n) else Stepping("", "", n, [n])
  }

  function ConfigOf(items: seq<Value>): Props {
    map["service_namespace" := Str("ecs"), "resource_id" := Str("service"), "scalable_dimension" := Str("count"),
        "min_capacity" := Int(0), "max_capacity" := Int(1), "policies" := List(items)]
  }

  lemma StepParses(lower: Option<real>, n: nat)
    requires n <= 9
    ensures ParseSteps([Map(StepMap(lower, n))]) == Ok([Step(lower, None, n)])
  {
    var items := [Map(StepMap(lower, n))];
    assert items[1..] == [] && ParseSteps(items[1..]) == Ok([]);
    assert ParseStep(items[0]) == Ok(Step(lower, None, n));
    assert [Step(lower, None, n)] + [] == [Step(lower, None, n)];
  }

  lemma StepItemReads(name: string, adjustmentType: string, lower: Option<real>, n: nat)
    requires n <= 9
    ensures var m := StepItem(name, adjustmentType, lower, n).m;
            && "target_value" !in m && StepsOf(m) == Ok([Step(lower, None, n)])
            && StrProp(m, "policy_name") == name && StrProp(m, "policy_type") == "StepScaling"
            && StrProp(m, "adjustment_type") == adjustmentType && StrProp(m, "predefined_metric_type") == ""
            && IntProp(m, "cooldown", 300) == n && IntProp(m, "scale_in_cooldown", 300) == 300
            && IntProp(m, "scale_out_cooldown", 300) == 300
  {
    StepParses(lower, n);
  }

  lemma StepItemParses(name: string, adjustmentType: string, lower: Option<real>, n: nat)
    requires n <= 9
    ensures ParsePolicy(StepItem(name, adjustmentType, lower, n)) == Ok(Stepper(name, adjustmentType, lower, n))
  {
    StepItemReads(name, adjustmentType, lower, n);
  }

  lemma TrackItemParses(name: string, metric: string, target: real, n: nat)
    requires n <= 9
    ensures ParsePolicy(TrackItem(name, metric, target, n)) == Ok(Tracker(name, metric, target, n))
  {
    var m := TrackItem(name, metric, target, n).m;
    assert NumberOf(m["target_value"]) == Some(target) && StepsOf(m) == Ok([]);
    assert StrProp(m, "policy_name") == name && StrProp(m, "policy_type") == "TargetTrackingScaling";
    assert StrProp(m, "adjustment_type") == "" && StrProp(m, "predefined_metric_type") == metric;
    assert IntProp(m, "cooldown", 300) == 300 && IntProp(m, "scale_in_cooldown", 300) == n;
    assert IntProp(m, "scale_out_cooldown", 300) == n;
  }

  lemma ItemParses(track: bool, name: string, mid: string, n: nat)
    requires n <= 9
    ensures ParsePolicy(Item(track, name, mid, n)) == Ok(Policy(track, name, mid, n))
  {
    if track { TrackItemParses(name, mid, Target(n), n); } else { StepItemParses(name, mid, None, n); }
  }

  lemma ItemEncodes(track: bool, name: string, mid: string, n: nat)
    requires n <= 9
    ensures Encode(Policy(track, name, mid, n)) == Make(Proto(track, n), name, mid)
    ensures mid != "" ==> PayloadOf(Policy(track, name, mid, n)).Some?
  {
    if track {
      assert Hundredths(Target(n)) == 111 * n by {
        if n > 0 { assert Target(n) * 100.0 == (111 * n) as real; }
      }
    }
  }

  lemma OneParses(v: Value, p: PolicySpec, rest: seq<Value>, ps: seq<PolicySpec>)
    requires ParsePolicy(v) == Ok(p) && p.name != "" && ParseItems(rest) == Ok(ps)
    ensures ParseItems([v] + rest) == Ok([p] + ps)
  {
    assert ([v] + rest)[1..] == rest;
  }

  lemma PairOfItems(track: bool, n: nat, n0: string, m0: string, n1: string, m1: string)
    requires n <= 9 && n0 != "" && n1 != ""
    ensures ParseItems([Item(track, n0, m0, n), Item(track, n1, m1, n)]) ==
              Ok([Policy(track, n0, m0, n), Policy(track, n1, m1, n)])
  {
    var (i0, i1) := (Item(track, n0, m0, n), Item(track, n1, m1, n));
    var (p0, p1) := (Policy(track, n0, m0, n), Policy(track, n1, m1, n));
    ItemParses(track, n0, m0, n);
    ItemParses(track, n1, m1, n);
    OneParses(i1, p1, [], []);
    OneParses(i0, p0, [i1] + [], [p1] + []);
    assert [i0] + ([i1] + []) == [i0, i1] && [p0] + ([p1] + []) == [p0, p1];
  }

  /** What a driver reads from such a configuration besides its policies. */
  lemma Settings(items: seq<Value>)
    ensures var config := ConfigOf(items);
            && KeyOf(config) == Key("ecs", "service", "count")
            && ValidateCapacity(config) == Some((0, 1)) && Parse(config) == ParseItems(items)
            && IntProp(config, "min_capacity", 0) == 0 && IntProp(config, "max_capacity", 1) == 1
  {
    assert ToInt32(0) == 0 && ToInt32(1) == 1;
  }

  function Pair(track: bool, n: nat, n0: string, m0: string, n1: string, m1: string): Props {
    ConfigOf([Item(track, n0, m0, n), Item(track, n1, m1, n)])
  }

  lemma PairParses(track: bool, n: nat, n0: string, m0: string, n1: string, m1: string)
    requires n <= 9 && n0 != "" && n1 != ""
    ensures Parse(Pair(track, n, n0, m0, n1, m1)) == Ok([Policy(track, n0, m0, n), Policy(track, n1, m1, n)])
  {
    Settings([Item(track, n0, m0, n), Item(track, n1, m1, n)]);
    PairOfItems(track, n, n0, m0, n1, m1);
  }

  lemma TwoMapped(p: PolicySpec, q: PolicySpec)
    ensures EncodeAll([p, q]) == [Encode(p), Encode(q)] && PolicyNames([p, q]) == [p.name, q.name]
  {
  }

  lemma PairEncodes(track: bool, n: nat, n0: string, m0: string, n1: string, m1: string)
    requires n <= 9 && n0 != "" && n1 != ""
    ensures var config := Pair(track, n, n0, m0, n1, m1);
            && Encodings(config) == [Make(Proto(track, n), n0, m0), Make(Proto(track, n), n1, m1)]
            && PolicyNames(Parsed(config)) == [n0, n1]
  {
    PairParses(track, n, n0, m0, n1, m1);
    ItemEncodes(track, n0, m0, n);
    ItemEncodes(track, n1, m1, n);
    TwoMapped(Policy(track, n0, m0, n), Policy(track, n1, m1, n));
  }

  lemma PairAccepted(track: bool, n: nat, n0: string, m0: string, n1: string, m1: string)
    requires n <= 9 && n0 != "" && n1 != "" && m0 != "" && m1 != ""
    ensures forall p | p in Parsed(Pair(track, n, n0, m0, n1, m1)) :: PayloadOf(p).Some?
  {
    PairParses(track, n, n0, m0, n1, m1);
    ItemEncodes(track, n0, m0, n);
    ItemEncodes(track, n1, m1, n);
  }

  function Willing(): Cloud { Cloud((n: nat) => Fate(true, []), 0, map[], map[]) }

  /** On this cloud whatever can be brought about is. */
  lemma WillingConverges(config: Props)
    ensures Converge(Willing(), config).1.Some? <==> Feasible(config)
  {
    assert Complete([], Willing().policies.Keys, KeyOf(config));
    ConvergeSucceedsIff(Willing(), config);
  }

  lemma PairConverges(track: bool, n: nat, n0: string, m0: string, n1: string, m1: string)
    requires n <= 9 && n0 != "" && n1 != "" && m0 != "" && m1 != ""
    ensures Converge(Willing(), Pair(track, n, n0, m0, n1, m1)).1.Some?
  {
    PairParses(track, n, n0, m0, n1, m1);
    PairAccepted(track, n, n0, m0, n1, m1);
    Settings([Item(track, n0, m0, n), Item(track, n1, m1, n)]);
    WillingConverges(Pair(track, n, n0, m0, n1, m1));
  }

  /* ----- what their strings are made of ----- */

  lemma DigitText(n: nat)
    requires n <= 9
    ensures Decimal(n) == ['0' + n as char] && IntText(n) == Decimal(n) && HundredthsText(111 * n) == Decimal(n) + "." + Decimal(n) + Decimal(n)
  {
    assert (111 * n) / 100 == n && (111 * n) % 100 == 11 * n && (11 * n) / 10 == n && (11 * n) % 10 == n;
    assert WholeText(111 * n) == Decimal(n);
  }

  lemma ProtoParts(track: bool, n: nat)
    requires n <= 9
    ensures var (p, s) := (Proto(track, n), Decimal(n));
            && First(p) == s && Second(p) == s
            && Head(p) == if track then "TT:" + (s + "." + s + s) + ":" else "SS:"
  {
    DigitText(n);
    if !track { assert IntTexts([n]) == [IntText(n)]; }
  }

  /** Characters with which a type's head can be written inside a string. */
  predicate Room(track: bool, n: nat, avoid: set<char>)
    requires n <= 9
  {
    && ':' !in avoid && '|' !in avoid && ('0' + n as char) !in avoid
    && (if track then 'T' !in avoid && '.' !in avoid else 'S' !in avoid)
  }

  lemma AvoidsBoth(a: string, b: string, avoid: set<char>)
    requires Avoids(a, avoid) && Avoids(b, avoid)
    ensures Avoids(a + b, avoid)
  {
  }

  lemma CarrierSpelled(track: bool, n: nat, avoid: set<char>)
    requires n <= 9 && Room(track, n, avoid)
    ensures var s := Decimal(n); Avoids(s, avoid) && Avoids(s + s, avoid) && Avoids(Carrier(Proto(track, n), s + s, s), avoid)
  {
    var (p, s) := (Proto(track, n), Decimal(n));
    DigitText(n);
    ProtoParts(track, n);
    var head := if track then "TT:" + (s + "." + s + s) + ":" else "SS:";
    assert Avoids(head, avoid);
    assert Avoids(s + [':'] + s + [':'] + s + ['|'] + (s + s) + [':'], avoid);
    AvoidsBoth(s + [':'] + s + [':'] + s + ['|'] + (s + s) + [':'], head, avoid);
    AvoidsBoth(s + [':'] + s + [':'] + s + ['|'] + (s + s) + [':'] + head, s, avoid);
  }

  /** Whoever does not avoid enough leaves room for the one head or the other. */
  lemma SomeRoom(avoid: set<char>) returns (track: bool, n: nat)
    requires !TellsApart(avoid)
    ensures n <= 9 && Room(track, n, avoid)
  {
    track := 'S' in avoid;
    var c :| c in DIGITS && c !in avoid;
    n := c as int - '0' as int;
  }

  /* ----- the exact condition ----- */

  /** No two configurations whose strings avoid some characters, the first applied, show no
      change while what is printed of their policies differs. */
  ghost predicate DiffTells(avoid: set<char>) {
    forall c: Cloud, a: Props, b: Props |
      Comparable(c, a, b, avoid) && Changed(b, Converge(c, a).1.value) == {} :: multiset(Encodings(a)) == multiset(Encodings(b))
  }

  lemma EnoughIsEnough(avoid: set<char>)
    requires TellsApart(avoid)
    ensures DiffTells(avoid)
  {
    forall c: Cloud, a: Props, b: Props | Comparable(c, a, b, avoid) && Changed(b, Converge(c, a).1.value) == {}
      ensures multiset(Encodings(a)) == multiset(Encodings(b))
    {
      ChangedAfter(c, a, b);
      PrintsDecide(Parsed(a), Parsed(b), avoid);
    }
  }

  lemma MadeSpelled(proto: Encoded, name: string, mid: string, avoid: set<char>)
    requires Plain(proto) && Avoids(name, avoid) && Avoids(mid, avoid)
    ensures Plain(Make(proto, name, mid)) && Spelled(Make(proto, name, mid), avoid)
  {
  }

  lemma PairSpelled(proto: Encoded, n0: string, m0: string, n1: string, m1: string, avoid: set<char>)
    requires Plain(proto) && Avoids(n0, avoid) && Avoids(m0, avoid) && Avoids(n1, avoid) && Avoids(m1, avoid)
    ensures var es := [Make(proto, n0, m0), Make(proto, n1, m1)]; AllPlain(es) && AllSpelled(es, avoid)
  {
    MadeSpelled(proto, n0, m0, avoid);
    MadeSpelled(proto, n1, m1, avoid);
  }

  lemma PairsCompare(track: bool, n: nat, n0: string, m0: string, n1: string, m1: string, avoid: set<char>)
    requires n <= 9 && n0 != "" && n1 != "" && m0 != "" && m1 != ""
    requires Avoids(n0, avoid) && Avoids(m0, avoid) && Avoids(n1, avoid) && Avoids(m1, avoid)
    ensures Comparable(Willing(), Pair(track, n, n0, m0, n1, m1), Pair(track, n, n0, m1, n1, m0), avoid)
  {
    PairEncodes(track, n, n0, m0, n1, m1);
    PairEncodes(track, n, n0, m1, n1, m0);
    PairConverges(track, n, n0, m0, n1, m1);
    PairSpelled(Proto(track, n), n0, m0, n1, m1, avoid);
    PairSpelled(Proto(track, n), n0, m1, n1, m0, avoid);
  }

  lemma SamePairSettings(track: bool, n: nat, n0: string, m0: string, n1: string, m1: string)
    requires n <= 9
    ensures SameSettings(Pair(track, n, n0, m0, n1, m1), Pair(track, n, n0, m1, n1, m0))
  {
    Settings([Item(track, n0, m0, n), Item(track, n1, m1, n)]);
    Settings([Item(track, n0, m1, n), Item(track, n1, m0, n)]);
  }

  /** Exchanging the strings of two policies whose prints come out the same is not noticed. */
  lemma NotNoticed(track: bool, n: nat, n0: string, m0: string, n1: string, m1: string)
    requires n <= 9 && n0 != "" && n1 != "" && m0 != "" && m1 != ""
    requires Fingerprint([Make(Proto(track, n), n0, m0), Make(Proto(track, n), n1, m1)])
          == Fingerprint([Make(Proto(track, n), n0, m1), Make(Proto(track, n), n1, m0)])
    ensures var (a, b) := (Pair(track, n, n0, m0, n1, m1), Pair(track, n, n0, m1, n1, m0));
            Converge(Willing(), a).1.Some? && Changed(b, Converge(Willing(), a).1.value) == {}
  {
    PairConverges(track, n, n0, m0, n1, m1);
    PairEncodes(track, n, n0, m0, n1, m1);
    PairEncodes(track, n, n0, m1, n1, m0);
    SamePairSettings(track, n, n0, m0, n1, m1);
    ChangedAfter(Willing(), Pair(track, n, n0, m0, n1, m1), Pair(track, n, n0, m1, n1, m0));
  }

  /** Two configurations whose policies differ in what is printed, both of which can be
      applied: after the first has been, the second shows no change. */
  lemma FooledDiff(track: bool, n: nat, avoid: set<char>) returns (a: Props, b: Props)
    requires n <= 9 && Room(track, n, avoid)
    ensures Comparable(Willing(), a, b, avoid) && Changed(b, Converge(Willing(), a).1.value) == {}
    ensures multiset(Encodings(a)) != multiset(Encodings(b))
    ensures forall p | p in Parsed(b) :: PayloadOf(p).Some?
  {
    var (p, s) := (Proto(track, n), Decimal(n));
    var (m, x) := (s + s, Carrier(p, s + s, s));
    a, b := Pair(track, n, s, s, m, x), Pair(track, n, s, x, m, s);
    DigitText(n);
    SeparatorsFoolFingerprint(p, s, m, s);
    CarrierSpelled(track, n, avoid);
    PairsCompare(track, n, s, s, m, x, avoid);
    NotNoticed(track, n, s, s, m, x);
    PairEncodes(track, n, s, s, m, x);
    PairEncodes(track, n, s, x, m, s);
    PairAccepted(track, n, s, x, m, s);
  }

  /** Diff tells apart what is printed of configurations' policies exactly when their strings
      avoid ':', or '|', or every digit, or 'S' together with 'T' or '.'. */
  lemma DiffTellsIff(avoid: set<char>)
    ensures DiffTells(avoid) <==> TellsApart(avoid)
  {
    if TellsApart(avoid) {
      EnoughIsEnough(avoid);
    } else {
      var track, n := SomeRoom(avoid);
      var a, b := FooledDiff(track, n, avoid);
    }
  }
}
