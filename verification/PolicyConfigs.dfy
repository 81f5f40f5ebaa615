/**
What a configuration's own keys become: which configurations are accepted, what is live
after one was applied, and what its fingerprint says.
*/
module PolicyConfigs {
  import opened Wrappers
  import opened Config
  import opened Policies
  import opened AutoScaling
  import opened Reconciliation
  import opened Diffing
  import opened Printing
  import opened Text
  import Mapping
  import Sorting

  /** The entries of the policies list. */
  function Entries(config: Props): seq<Value> {
    if "policies" in config && config["policies"].List? then config["policies"].items else []
  }

  predicate IsText(m: Props, key: string, s: string) { Lookup(m, key) == Some(Str(s)) }

  predicate HasText(m: Props, key: string) { key in m && m[key].Str? && m[key].s != "" }

  predicate IsNumber(m: Props, key: string, r: real) {
    key in m && match m[key]
                case Float(x) => x == r
                case Int(n) => n as real == r
                case Int64(n) => n as real == r
                case _ => false
  }

  /** A number is given under the key. */
  predicate HasNumber(m: Props, key: string) { key in m && (m[key].Float? || m[key].Int? || m[key].Int64?) }

  function Int32At(m: Props, key: string, default: int): int { ToInt32(IntProp(m, key, default)) }

  lemma TextAt(m: Props, key: string)
    ensures StrProp(m, key) != "" <==> HasText(m, key)
    ensures StrProp(m, key) != "" ==> IsText(m, key, StrProp(m, key))
  {
  }

  /* ----- what an entry says ----- */

  predicate BoundSays(m: Props, key: string, bound: Option<real>) {
    match bound
    case Some(r) => Lookup(m, key) == Some(Float(r))
    case None => key in m ==> !m[key].Float?
  }

  predicate StepSays(v: Value, s: Step) {
    && v.Map? && s.adjustment == Int32At(v.m, "scaling_adjustment", 0)
    && BoundSays(v.m, "metric_interval_lower_bound", s.lower)
    && BoundSays(v.m, "metric_interval_upper_bound", s.upper)
  }

  /** Each step is its own item's, in order. */
  predicate StepsSay(items: seq<Value>, steps: seq<Step>) {
    |steps| == |items| && forall i | 0 <= i < |items| :: StepSays(items[i], steps[i])
  }

  /** Every field of what is put is what the entry has under its own key. */
  predicate Says(m: Props, payload: Payload) {
    match payload
    case TrackingPayload(target, metric, inCooldown, outCooldown) =>
      && IsText(m, "policy_type", "TargetTrackingScaling")
      && IsNumber(m, "target_value", target) && IsText(m, "predefined_metric_type", metric)
      && inCooldown == Int32At(m, "scale_in_cooldown", 300) && outCooldown == Int32At(m, "scale_out_cooldown", 300)
    case SteppingPayload(adjustmentType, steps, cooldown) =>
      && IsText(m, "policy_type", "StepScaling")
      && IsText(m, "adjustment_type", adjustmentType) && cooldown == Int32At(m, "cooldown", 300)
      && "step_adjustments" in m && m["step_adjustments"].List? && StepsSay(m["step_adjustments"].items, steps)
  }

  lemma {:induction false} StepsParseIff(items: seq<Value>)
    ensures ParseSteps(items).Ok? <==> forall v | v in items :: v.Map?
    ensures ParseSteps(items).Err? ==> ParseSteps(items).error == StepNotAMap
  {
    if items != [] {
      StepsParseIff(items[1..]);
      assert items[0] in items && forall v | v in items :: v == items[0] || v in items[1..];
      assert forall v | v in items[1..] :: v in items;
    }
  }

  lemma {:induction false} ParsedStepsSay(items: seq<Value>)
    ensures ParseSteps(items).Ok? ==> StepsSay(items, ParseSteps(items).value)
  {
    if items != [] {
      ParsedStepsSay(items[1..]);
    }
  }

  lemma PayloadSays(m: Props)
    requires ParsePolicy(Map(m)).Ok? && PayloadOf(ParsePolicy(Map(m)).value).Some?
    ensures Says(m, PayloadOf(ParsePolicy(Map(m)).value).value)
  {
    TextAt(m, "policy_type");
    TextAt(m, "predefined_metric_type");
    TextAt(m, "adjustment_type");
    if "step_adjustments" in m && m["step_adjustments"].List? { ParsedStepsSay(m["step_adjustments"].items); }
  }

  /* ----- entries by name ----- */

  predicate EntryNamed(v: Value, name: string) { name != "" && v.Map? && IsText(v.m, "policy_name", name) }

  /** The k-th entry is the last of its name. */
  predicate LastNamed(items: seq<Value>, k: nat, name: string) {
    k < |items| && EntryNamed(items[k], name) && forall j | k < j < |items| :: !EntryNamed(items[j], name)
  }

  lemma NameParses(v: Value, name: string)
    requires ParsePolicy(v).Ok? && name != ""
    ensures ParsePolicy(v).value.name == name <==> EntryNamed(v, name)
  {
  }

  lemma FirstNamed(items: seq<Value>)
    requires items != [] && ParseItems(items).Ok?
    ensures ParsePolicy(items[0]).Ok? && ParseItems(items[1..]).Ok?
    ensures var p := ParsePolicy(items[0]).value;
            ParseItems(items).value == (if p.name == "" then [] else [p]) + ParseItems(items[1..]).value
  {
  }

  lemma AskedFirst(key: Key, p: PolicySpec, rest: seq<PolicySpec>)
    ensures Asked(key, [p] + rest) ==
              if PayloadOf(p).None? then Asked(key, rest)
              else map[PolicyID(key, p.name) := PayloadOf(p).value] + Asked(key, rest)
  {
    assert ([p] + rest)[1..] == rest;
  }

  /** Nothing is asked for under a name no entry has. */
  lemma {:induction false} UnnamedNotAsked(key: Key, items: seq<Value>, name: string)
    requires ParseItems(items).Ok? && name != "" && forall v | v in items :: !EntryNamed(v, name)
    ensures PolicyID(key, name) !in Asked(key, ParseItems(items).value)
  {
    if items != [] {
      FirstNamed(items);
      var (p, rest) := (ParsePolicy(items[0]).value, ParseItems(items[1..]).value);
      assert items[0] in items && forall v | v in items[1..] :: v in items;
      UnnamedNotAsked(key, items[1..], name);
      NameParses(items[0], name);
      if p.name == "" { assert [] + rest == rest; } else { AskedFirst(key, p, rest); }
    }
  }

  lemma {:induction false} AskedByEntry(key: Key, items: seq<Value>, k: nat, name: string)
    requires ParseItems(items).Ok? && LastNamed(items, k, name)
    ensures ParsePolicy(items[k]).Ok?
    ensures PayloadOf(ParsePolicy(items[k]).value).Some? ==>
              Lookup(Asked(key, ParseItems(items).value), PolicyID(key, name)) == PayloadOf(ParsePolicy(items[k]).value)
    ensures ParsePolicy(items[k]).value in ParseItems(items).value
  {
    FirstNamed(items);
    var (p, rest) := (ParsePolicy(items[0]).value, ParseItems(items[1..]).value);
    if k == 0 {
      NameParses(items[0], name);
      assert forall v | v in items[1..] :: !EntryNamed(v, name);
      UnnamedNotAsked(key, items[1..], name);
      AskedFirst(key, p, rest);
    } else {
      AskedByEntry(key, items[1..], k - 1, name);
      if p.name == "" { assert [] + rest == rest; } else { AskedFirst(key, p, rest); }
    }
  }

  /** The target a configuration names. */
  ghost predicate IsKey(config: Props, key: Key) {
    && key.ns == StrProp(config, "service_namespace") && key.resource == StrProp(config, "resource_id")
    && key.dim == StrProp(config, "scalable_dimension")
  }

  /** After a successful Create or Update the target is registered with the configuration's
      capacity and role, and the live policy of every name is, field by field and key by key,
      what the last entry of the name says; a name without an entry has none. */
  lemma LiveSaysConfig(c: Cloud, config: Props, key: Key, name: string)
    requires Converge(c, config).1.Some? && IsKey(config, key)
    ensures var c' := Converge(c, config).0;
            && Lookup(c'.targets, key) ==
                 Some(Target(Int32At(config, "min_capacity", -1), Int32At(config, "max_capacity", -1), StrProp(config, "role_arn")))
            && (forall k: nat | LastNamed(Entries(config), k, name) ::
                  PolicyID(key, name) in c'.policies && Says(Entries(config)[k].m, c'.policies[PolicyID(key, name)]))
            && (name != "" && (forall v | v in Entries(config) :: !EntryNamed(v, name)) ==> PolicyID(key, name) !in c'.policies)
  {
    ConvergeEffect(c, config);
    ConvergeOutput(c, config);
    var (c', items) := (Converge(c, config).0, Entries(config));
    assert ParseItems(items).Ok? && Parsed(config) == ParseItems(items).value;
    assert Lookup(Of(c'.policies, key), PolicyID(key, name)) == Lookup(c'.policies, PolicyID(key, name));
    forall k: nat | LastNamed(items, k, name)
      ensures PolicyID(key, name) in c'.policies && Says(items[k].m, c'.policies[PolicyID(key, name)])
    {
      AskedByEntry(key, items, k, name);
      PayloadSays(items[k].m);
    }
    if name != "" && forall v | v in items :: !EntryNamed(v, name) { UnnamedNotAsked(key, items, name); }
  }

  /* ----- what is accepted ----- */

  /** The first thing wrong with an entry, in the order in which it is looked at. */
  function Fault(v: Value): Option<ParseError> {
    if !v.Map? then Some(PolicyNotAMap)
    else if "target_value" in v.m && !HasNumber(v.m, "target_value") then Some(TargetNotANumber)
    else if "step_adjustments" in v.m && !v.m["step_adjustments"].List? then Some(StepsNotAList)
    else if "step_adjustments" in v.m && exists s :: s in v.m["step_adjustments"].items && !s.Map? then Some(StepNotAMap)
    else None
  }

  lemma FaultIs(v: Value)
    ensures ParsePolicy(v).Err? <==> Fault(v).Some?
    ensures ParsePolicy(v).Err? ==> ParsePolicy(v).error == Fault(v).value
  {
    if v.Map? && "step_adjustments" in v.m && v.m["step_adjustments"].List? { StepsParseIff(v.m["step_adjustments"].items); }
  }

  /** The k-th entry is the first that is malformed. */
  predicate FirstFault(items: seq<Value>, k: nat, e: ParseError) {
    k < |items| && Fault(items[k]) == Some(e) && forall j | 0 <= j < k :: Fault(items[j]) == None
  }

  /** The error is the first fault of the first malformed entry. */
  lemma {:induction false} FirstFaultIsReported(items: seq<Value>, k: nat, e: ParseError)
    requires FirstFault(items, k, e)
    ensures ParseItems(items) == Err(e)
  {
    FaultIs(items[0]);
    if k > 0 { FirstFaultIsReported(items[1..], k - 1, e); }
  }

  /** A named entry says enough to be put. */
  predicate Complete(m: Props) {
    || (IsText(m, "policy_type", "TargetTrackingScaling") && HasText(m, "predefined_metric_type")
        && HasNumber(m, "target_value") && NumberOf(m["target_value"]).value > 0.0)
    || (IsText(m, "policy_type", "StepScaling") && HasText(m, "adjustment_type")
        && "step_adjustments" in m && m["step_adjustments"].List? && m["step_adjustments"].items != [])
  }

  predicate Acceptable(config: Props) {
    && "min_capacity" in config && "max_capacity" in config
    && 0 <= IntProp(config, "min_capacity", -1) <= IntProp(config, "max_capacity", -1)
    && ("policies" in config ==> config["policies"].List?)
    && (forall v | v in Entries(config) :: Fault(v) == None && (HasText(v.m, "policy_name") ==> Complete(v.m)))
  }

  lemma {:induction false} StepsParseSome(items: seq<Value>)
    ensures ParseSteps(items).Ok? ==> |ParseSteps(items).value| == |items|
  {
    if items != [] { StepsParseSome(items[1..]); }
  }

  lemma CompleteIs(m: Props)
    requires ParsePolicy(Map(m)).Ok?
    ensures PayloadOf(ParsePolicy(Map(m)).value).Some? <==> Complete(m)
    ensures ParsePolicy(Map(m)).value.name != "" <==> HasText(m, "policy_name")
  {
    TextAt(m, "policy_name");
    TextAt(m, "policy_type");
    TextAt(m, "predefined_metric_type");
    TextAt(m, "adjustment_type");
    if "step_adjustments" in m && m["step_adjustments"].List? { StepsParseSome(m["step_adjustments"].items); }
  }

  lemma {:induction false} ItemsAccepted(items: seq<Value>)
    ensures (ParseItems(items).Ok? && forall p | p in ParseItems(items).value :: PayloadOf(p).Some?) <==>
              forall v | v in items :: Fault(v) == None && (HasText(v.m, "policy_name") ==> Complete(v.m))
  {
    if items != [] {
      var (first, rest) := (items[0], items[1..]);
      assert items == [first] + rest;
      FaultIs(first);
      ItemsAccepted(rest);
      if first.Map? && Fault(first) == None { CompleteIs(first.m); }
      if ParseItems(items).Ok? { FirstNamed(items); }
    }
  }

  lemma FeasibleIff(config: Props)
    ensures Feasible(config) <==> Acceptable(config)
  {
    ItemsAccepted(Entries(config));
  }

  /** All three parts of the identity are given. */
  predicate Identified(config: Props) {
    HasText(config, "service_namespace") && HasText(config, "resource_id") && HasText(config, "scalable_dimension")
  }

  /** A Create whose calls are answered succeeds exactly for an identified and acceptable
      configuration, and an Update for one whose identity also prints as its ProviderID. */
  lemma AcceptedIff(c: Cloud, providerID: string, config: Props, key: Key)
    requires forall n: nat | n >= c.calls :: c.fate(n).ok
    requires IsKey(config, key) && AutoScaling.Complete(c.fate(c.calls + 1).names, c.policies.Keys, key)
    ensures Create(c, config).1.Some? <==> Identified(config) && Acceptable(config)
    ensures Update(c, providerID, config).1.Some? <==>
              && Identified(config) && Acceptable(config)
              && (providerID != "" ==> providerID == key.ns + "|" + key.resource + "|" + key.dim)
  {
    TextAt(config, "service_namespace");
    TextAt(config, "resource_id");
    TextAt(config, "scalable_dimension");
    ConvergeSucceedsIff(c, config);
    FeasibleIff(config);
  }

  /* ----- what the fingerprint says ----- */

  function EntryName(v: Value): string { if v.Map? then StrProp(v.m, "policy_name") else "" }

  function AdjustmentText(v: Value): string { if v.Map? then IntText(Int32At(v.m, "scaling_adjustment", 0)) else "" }

  /** What is printed for an entry, from its own keys. */
  function EntryText(v: Value): string
    requires Fault(v) == None
  {
    var m := v.m;
    var (name, kind) := (StrProp(m, "policy_name"), StrProp(m, "policy_type"));
    if kind == "TargetTrackingScaling" then
      var target := if "target_value" in m then NumberOf(m["target_value"]).value else 0.0;
      name + ":TT:" + HundredthsText(Hundredths(target)) + ":" + StrProp(m, "predefined_metric_type")
      + ":" + IntText(Int32At(m, "scale_in_cooldown", 300)) + ":" + IntText(Int32At(m, "scale_out_cooldown", 300))
    else if kind == "StepScaling" then
      var steps := if "step_adjustments" in m then m["step_adjustments"].items else [];
      name + ":SS:" + StrProp(m, "adjustment_type") + ":" + IntText(Int32At(m, "cooldown", 300))
      + ":" + Join(Mapping.Map(steps, AdjustmentText), '+')
    else name + ":?:" + kind
  }

  lemma TrackingText(name: string, g: string, metric: string, u: string, v: string)
    ensures name + [':'] + (("TT:" + g + ":") + (metric + [':'] + u + [':'] + v))
         == name + ":TT:" + g + ":" + metric + ":" + u + ":" + v
  {
  }

  lemma SteppingText(name: string, adjustmentType: string, u: string, v: string)
    ensures name + [':'] + ("SS:" + (adjustmentType + [':'] + u + [':'] + v))
         == name + ":SS:" + adjustmentType + ":" + u + ":" + v
  {
  }

  lemma AdjustmentsPrinted(items: seq<Value>, steps: seq<Step>, ns: seq<int>)
    requires StepsSay(items, steps) && |ns| == |steps| && forall i | 0 <= i < |ns| :: ns[i] == steps[i].adjustment
    ensures IntTexts(ns) == Mapping.Map(items, AdjustmentText)
  {
    forall i | 0 <= i < |items| ensures IntTexts(ns)[i] == Mapping.Map(items, AdjustmentText)[i] {
      assert StepSays(items[i], steps[i]);
    }
  }

  lemma TrackingEntryPrints(v: Value)
    requires Fault(v) == None && ParsePolicy(v).Ok? && ParsePolicy(v).value.kind == "TargetTrackingScaling"
    ensures Print(Encode(ParsePolicy(v).value)) == EntryText(v)
  {
    var p := ParsePolicy(v).value;
    PrintIs(Encode(p));
    TrackingText(p.name, HundredthsText(Hundredths(p.target)), p.metric, IntText(p.inCooldown), IntText(p.outCooldown));
  }

  lemma SteppingEntryPrints(v: Value)
    requires Fault(v) == None && ParsePolicy(v).Ok? && ParsePolicy(v).value.kind == "StepScaling"
    ensures Print(Encode(ParsePolicy(v).value)) == EntryText(v)
  {
    var p := ParsePolicy(v).value;
    var items := if "step_adjustments" in v.m then v.m["step_adjustments"].items else [];
    PrintIs(Encode(p));
    ParsedStepsSay(items);
    AdjustmentsPrinted(items, p.steps, Encode(p).adjustments);
    SteppingText(p.name, p.adjustmentType, IntText(p.cooldown), Join(Mapping.Map(items, AdjustmentText), '+'));
  }

  lemma EntryPrints(v: Value)
    requires Fault(v) == None
    ensures ParsePolicy(v).Ok? && Print(Encode(ParsePolicy(v).value)) == EntryText(v)
  {
    FaultIs(v);
    var p := ParsePolicy(v).value;
    if p.kind == "TargetTrackingScaling" {
      TrackingEntryPrints(v);
    } else if p.kind == "StepScaling" {
      SteppingEntryPrints(v);
    } else {
      PrintUnknown(p.name, p.kind);
    }
  }

  /** The named entries. */
  function NamedEntries(items: seq<Value>): seq<Value> {
    if items == [] then [] else (if EntryName(items[0]) != "" then [items[0]] else []) + NamedEntries(items[1..])
  }

  function SpecAt(v: Value): PolicySpec {
    if ParsePolicy(v).Ok? then ParsePolicy(v).value else PolicySpec(EntryName(v), "", 0.0, "", 0, 0, "", [], 0)
  }

  function EncodedAt(v: Value): Encoded { Encode(SpecAt(v)) }

  function TextAtEntry(v: Value): string { if Fault(v) == None then EntryText(v) else "" }

  lemma {:induction false} NamedEntriesParse(items: seq<Value>)
    requires ParseItems(items).Ok?
    ensures EncodeAll(ParseItems(items).value) == Mapping.Map(NamedEntries(items), EncodedAt)
    ensures forall v | v in NamedEntries(items) :: Fault(v) == None
  {
    if items != [] {
      NamedEntriesParse(items[1..]);
      FirstNamed(items);
      FaultIs(items[0]);
    }
  }

  lemma EncodedNames()
    ensures forall v :: NameOf(EncodedAt(v)) == EntryName(v)
  {
  }

  lemma SortedTexts(es: seq<Value>)
    requires forall v | v in es :: Fault(v) == None
    ensures var sorted := Sorting.Sort(es, EntryName);
            PrintAll(Mapping.Map(sorted, EncodedAt)) == Mapping.Map(sorted, TextAtEntry)
  {
    var sorted := Sorting.Sort(es, EntryName);
    Sorting.SortCorrect(es, EntryName);
    forall i | 0 <= i < |sorted| ensures Print(EncodedAt(sorted[i])) == TextAtEntry(sorted[i]) {
      assert sorted[i] in multiset(sorted);
      assert sorted[i] in es;
      EntryPrints(sorted[i]);
    }
  }

  lemma SortedEncodings(es: seq<Value>)
    ensures Sorting.Sort(Mapping.Map(es, EncodedAt), NameOf) == Mapping.Map(Sorting.Sort(es, EntryName), EncodedAt)
  {
    EncodedNames();
    Mapping.MapSort(es, EntryName, EncodedAt, NameOf);
  }

  /** The fingerprint is the texts of the named entries, sorted by name and joined by '|'. */
  lemma FingerprintSaysConfig(config: Props)
    requires Parse(config).Ok?
    ensures PolicyConfigFingerprint(config) ==
              Join(Mapping.Map(Sorting.Sort(NamedEntries(Entries(config)), EntryName), TextAtEntry), '|')
  {
    var es := NamedEntries(Entries(config));
    assert ParseItems(Entries(config)) == Ok(Parsed(config));
    NamedEntriesParse(Entries(config));
    SortedEncodings(es);
    SortedTexts(es);
  }
}
