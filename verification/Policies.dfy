/** Scaling policies as configured: parsing, printing, and the fingerprint used for diffs. */
module Policies {
  import opened Wrappers
  import opened Config
  import opened Text
  import Mapping
  import Sorting

  datatype Step = Step(lower: Option<real>, upper: Option<real>, adjustment: int)

  datatype PolicySpec = PolicySpec(
    name: string, kind: string,
    target: real, metric: string, inCooldown: int, outCooldown: int,
    adjustmentType: string, steps: seq<Step>, cooldown: int)

  datatype ParseError = PoliciesNotAList | PolicyNotAMap | TargetNotANumber | StepsNotAList | StepNotAMap

  /* ----- parsing ----- */

  function FloatAt(m: Props, key: string): Option<real> {
    if key in m && m[key].Float? then Some(m[key].r) else None
  }

  function ParseStep(v: Value): Result<Step, ParseError> {
    match v
    case Map(m) => Ok(Step(FloatAt(m, "metric_interval_lower_bound"), FloatAt(m, "metric_interval_upper_bound"),
                           ToInt32(IntProp(m, "scaling_adjustment", 0))))
    case _ => Err(StepNotAMap)
  }

  function ParseSteps(items: seq<Value>): Result<seq<Step>, ParseError> {
    if items == [] then Ok([])
    else
      match ParseStep(items[0])
      case Err(e) => Err(e)
      case Ok(s) =>
        match ParseSteps(items[1..])
        case Err(e) => Err(e)
        case Ok(rest) => Ok([s] + rest)
  }

  function StepsOf(m: Props): Result<seq<Step>, ParseError> {
    if "step_adjustments" !in m then Ok([])
    else if m["step_adjustments"].List? then ParseSteps(m["step_adjustments"].items)
    else Err(StepsNotAList)
  }

  /** The target value is looked at before the step adjustments. */
  function ParsePolicy(v: Value): Result<PolicySpec, ParseError> {
    if !v.Map? then Err(PolicyNotAMap)
    else
      var m := v.m;
      if "target_value" in m && NumberOf(m["target_value"]).None? then Err(TargetNotANumber)
      else
        match StepsOf(m)
        case Err(e) => Err(e)
        case Ok(steps) =>
          Ok(PolicySpec(
            StrProp(m, "policy_name"), StrProp(m, "policy_type"),
            if "target_value" in m then NumberOf(m["target_value"]).value else 0.0,
            StrProp(m, "predefined_metric_type"),
            ToInt32(IntProp(m, "scale_in_cooldown", 300)), ToInt32(IntProp(m, "scale_out_cooldown", 300)),
            StrProp(m, "adjustment_type"), steps, ToInt32(IntProp(m, "cooldown", 300))))
  }

  /** A nameless policy is checked like the others and then dropped. */
  function ParseItems(items: seq<Value>): Result<seq<PolicySpec>, ParseError> {
    if items == [] then Ok([])
    else
      match ParsePolicy(items[0])
      case Err(e) => Err(e)
      case Ok(p) =>
        match ParseItems(items[1..])
        case Err(e) => Err(e)
        case Ok(rest) => Ok((if p.name == "" then [] else [p]) + rest)
  }

  function Parse(config: Props): Result<seq<PolicySpec>, ParseError> {
    if "policies" !in config then Ok([])
    else if config["policies"].List? then ParseItems(config["policies"].items)
    else Err(PoliciesNotAList)
  }

  /** What the callers that ignore the error see. */
  function Parsed(config: Props): seq<PolicySpec> {
    var r := Parse(config);
    if r.Ok? then r.value else []
  }

  function PolicyName(p: PolicySpec): string { p.name }

  function PolicyNames(ps: seq<PolicySpec>): seq<string> { Mapping.Map(ps, PolicyName) }

  /** The named entries, each as it parses, in order. */
  function Named(items: seq<Value>): seq<PolicySpec> {
    if items == [] then []
    else
      var first := ParsePolicy(items[0]);
      (if first.Ok? && first.value.name != "" then [first.value] else []) + Named(items[1..])
  }

  /** One malformed entry, named or not, fails the whole list; otherwise the policies are
      the named entries in order. */
  lemma {:induction false} ParseIsAllOrNothing(items: seq<Value>)
    ensures ParseItems(items).Err? <==> exists v :: v in items && ParsePolicy(v).Err?
    ensures ParseItems(items).Ok? ==> ParseItems(items).value == Named(items)
  {
    if items != [] {
      ParseIsAllOrNothing(items[1..]);
      assert items == [items[0]] + items[1..];
      assert items[0] in items && forall v | v in items[1..] :: v in items;
    }
  }

  /** What an accumulating loop still has to add to its result. */
  function Continue<T>(found: seq<T>, rest: Result<seq<T>, ParseError>): Result<seq<T>, ParseError> {
    match rest case Err(e) => Err(e) case Ok(more) => Ok(found + more)
  }

  lemma ContinueNothing<T>(rest: Result<seq<T>, ParseError>)
    ensures Continue([], rest) == rest
  {
    if rest.Ok? { assert [] + rest.value == rest.value; }
  }

  lemma ContinueBoth<T>(xs: seq<T>, ys: seq<T>, rest: Result<seq<T>, ParseError>)
    ensures Continue(xs, Continue(ys, rest)) == Continue(xs + ys, rest)
  {
    if rest.Ok? { assert xs + (ys + rest.value) == xs + ys + rest.value; }
  }

  method StepAdjustments(items: seq<Value>) returns (r: Result<seq<Step>, ParseError>)
    ensures r == ParseSteps(items)
  {
    var result: seq<Step> := [];
    var j := 0;
    ContinueNothing(ParseSteps(items));
    assert items[0..] == items;
    while j < |items|
      invariant 0 <= j <= |items|
      invariant ParseSteps(items) == Continue(result, ParseSteps(items[j..]))
    {
      assert items[j..][1..] == items[j + 1..];
      if !items[j].Map? { return Err(StepNotAMap); }
      var m := items[j].m;
      var sa := Step(FloatAt(m, "metric_interval_lower_bound"), FloatAt(m, "metric_interval_upper_bound"),
                     ToInt32(IntProp(m, "scaling_adjustment", 0)));
      ContinueBoth(result, [sa], ParseSteps(items[j + 1..]));
      result := result + [sa];
      j := j + 1;
    }
    assert result + [] == result;
    return Ok(result);
  }

  method ParsePolicies(config: Props) returns (r: Result<seq<PolicySpec>, ParseError>)
    ensures r == Parse(config)
  {
    if "policies" !in config { return Ok([]); }
    if !config["policies"].List? { return Err(PoliciesNotAList); }
    var items := config["policies"].items;
    var result: seq<PolicySpec> := [];
    var i := 0;
    ContinueNothing(ParseItems(items));
    assert items[0..] == items;
    while i < |items|
      invariant 0 <= i <= |items|
      invariant ParseItems(items) == Continue(result, ParseItems(items[i..]))
    {
      assert items[i..][1..] == items[i + 1..];
      if !items[i].Map? { return Err(PolicyNotAMap); }
      var m := items[i].m;
      var target := 0.0;
      if "target_value" in m {
        var number := NumberOf(m["target_value"]);
        if number.None? { return Err(TargetNotANumber); }
        target := number.value;
      }
      var steps := [];
      if "step_adjustments" in m {
        if !m["step_adjustments"].List? { return Err(StepsNotAList); }
        var parsed := StepAdjustments(m["step_adjustments"].items);
        if parsed.Err? { return Err(parsed.error); }
        steps := parsed.value;
      }
      var p := PolicySpec(
        StrProp(m, "policy_name"), StrProp(m, "policy_type"), target, StrProp(m, "predefined_metric_type"),
        ToInt32(IntProp(m, "scale_in_cooldown", 300)), ToInt32(IntProp(m, "scale_out_cooldown", 300)),
        StrProp(m, "adjustment_type"), steps, ToInt32(IntProp(m, "cooldown", 300)));
      assert ParsePolicy(items[i]) == Ok(p);
      var kept := if p.name == "" then [] else [p];
      ContinueBoth(result, kept, ParseItems(items[i + 1..]));
      result := result + kept;
      i := i + 1;
    }
    assert result + [] == result;
    return Ok(result);
  }

  /* ----- the fingerprint ----- */

  /** What the fingerprint prints of a policy. Step interval bounds are not printed, and
      the target value only to the hundredth. */
  datatype Encoded =
    | Tracking(name: string, hundredths: int, metric: string, inCooldown: int, outCooldown: int)
    | Stepping(name: string, adjustmentType: string, cooldown: int, adjustments: seq<int>)
    | Unknown(name: string, kind: string)

  /** The two-decimal rounding of a target value, as a count of hundredths. */
  function Hundredths(r: real): int { (r * 100.0 + 0.5).Floor }

  function Encode(p: PolicySpec): Encoded {
    if p.kind == "TargetTrackingScaling" then
      Tracking(p.name, Hundredths(p.target), p.metric, p.inCooldown, p.outCooldown)
    else if p.kind == "StepScaling" then
      Stepping(p.name, p.adjustmentType, p.cooldown,
               seq(|p.steps|, i requires 0 <= i < |p.steps| => p.steps[i].adjustment))
    else Unknown(p.name, p.kind)
  }

  function EncodeAll(ps: seq<PolicySpec>): seq<Encoded> { Mapping.Map(ps, Encode) }

  function Magnitude(h: int): nat { if h < 0 then -h else h }

  function WholeText(h: int): string { (if h < 0 then "-" else "") + Decimal(Magnitude(h) / 100) }

  function TwoDigits(m: nat): string { Decimal(m / 10) + Decimal(m % 10) }

  function CentsText(h: int): string { TwoDigits(Magnitude(h) % 100) }

  /** A count of hundredths, printed with two decimals. */
  function HundredthsText(h: int): string { WholeText(h) + ['.'] + CentsText(h) }

  /** The printed number is the nearest count of hundredths: at most half of one away. */
  lemma HundredthsRound(r: real)
    ensures -0.5 <= Hundredths(r) as real - r * 100.0 <= 0.5
  {
  }

  /** The text of a count of hundredths: a sign if it is negative, digits, a point and two
      digits, which together spell the count. */
  lemma HundredthsSpelled(h: int) returns (whole: string, cents: string)
    ensures HundredthsText(h) == (if h < 0 then "-" else "") + whole + ['.'] + cents
    ensures whole != "" && |cents| == 2 && forall i | 0 <= i < |whole + cents| :: IsDigit((whole + cents)[i])
    ensures DecimalValue(whole + cents) == Magnitude(h)
  {
    whole, cents := Decimal(Magnitude(h) / 100), CentsText(h);
    TwoDigitsValue(whole, Magnitude(h) % 100);
    DecimalRoundTrip(Magnitude(h) / 100);
  }

  lemma TwoDigitsValue(whole: string, m: nat)
    requires m < 100 && forall i | 0 <= i < |whole| :: IsDigit(whole[i])
    ensures |TwoDigits(m)| == 2 && (forall i | 0 <= i < 2 :: IsDigit(TwoDigits(m)[i]))
    ensures DecimalValue(whole + TwoDigits(m)) == 100 * DecimalValue(whole) + m
  {
    var (tens, ones) := (Decimal(m / 10), Decimal(m % 10));
    assert |tens| == 1 && |ones| == 1;
    var s := whole + tens + ones;
    assert whole + TwoDigits(m) == s;
    assert s[..|s| - 1] == whole + tens && (whole + tens)[..|whole|] == whole;
  }

  function IntTexts(ns: seq<int>): seq<string> { Mapping.Map(ns, IntText) }

  function Fields(e: Encoded): seq<string> {
    match e
    case Tracking(name, h, metric, i, o) => [name, "TT", HundredthsText(h), metric, IntText(i), IntText(o)]
    case Stepping(name, adjustmentType, cooldown, adjustments) =>
      [name, "SS", adjustmentType, IntText(cooldown), Join(IntTexts(adjustments), '+')]
    case Unknown(name, kind) => [name, "?", kind]
  }

  function Print(e: Encoded): string { Join(Fields(e), ':') }

  function PrintAll(es: seq<Encoded>): seq<string> { Mapping.Map(es, Print) }

  function NameOf(e: Encoded): string { e.name }

  /** Sorted by name, printed, and joined; empty when there is no policy. */
  function Fingerprint(es: seq<Encoded>): string {
    Join(PrintAll(Sorting.Sort(es, NameOf)), '|')
  }

  /** Printed strings that keep out of the separators' way. */
  predicate Clean(e: Encoded) {
    && Free(e.name, ':') && Free(e.name, '|')
    && (e.Tracking? ==> Free(e.metric, ':') && Free(e.metric, '|'))
    && (e.Stepping? ==> Free(e.adjustmentType, ':') && Free(e.adjustmentType, '|'))
    && (e.Unknown? ==> Free(e.kind, ':') && Free(e.kind, '|'))
  }

  lemma WholeInjective(g: int, h: int)
    requires WholeText(g) == WholeText(h)
    ensures (g < 0 <==> h < 0) && Magnitude(g) / 100 == Magnitude(h) / 100
  {
    assert IsDigit(Decimal(Magnitude(g) / 100)[0]) && IsDigit(Decimal(Magnitude(h) / 100)[0]);
    assert WholeText(g)[0] == '-' <==> g < 0;
    assert WholeText(h)[0] == '-' <==> h < 0;
    var sign := if g < 0 then 1 else 0;
    assert WholeText(g)[sign..] == Decimal(Magnitude(g) / 100);
    assert WholeText(h)[sign..] == Decimal(Magnitude(h) / 100);
    DecimalInjective(Magnitude(g) / 100, Magnitude(h) / 100);
  }

  lemma TwoDigitsInjective(m: nat, n: nat)
    requires m < 100 && n < 100 && TwoDigits(m) == TwoDigits(n)
    ensures m == n
  {
    assert |Decimal(m / 10)| == 1 && |Decimal(n / 10)| == 1;
    assert TwoDigits(m)[..1] == Decimal(m / 10) && TwoDigits(n)[..1] == Decimal(n / 10);
    assert TwoDigits(m)[1..] == Decimal(m % 10) && TwoDigits(n)[1..] == Decimal(n % 10);
    DecimalInjective(m / 10, n / 10);
    DecimalInjective(m % 10, n % 10);
  }

  lemma HundredthsInjective(g: int, h: int)
    requires HundredthsText(g) == HundredthsText(h)
    ensures g == h
  {
    FirstPart(WholeText(g), WholeText(h), CentsText(g), CentsText(h), '.');
    WholeInjective(g, h);
    TwoDigitsInjective(Magnitude(g) % 100, Magnitude(h) % 100);
  }

  lemma IntsInjective(xs: seq<int>, ys: seq<int>)
    requires Join(IntTexts(xs), '+') == Join(IntTexts(ys), '+')
    ensures xs == ys
  {
    var (a, b) := (IntTexts(xs), IntTexts(ys));
    assert xs != [] ==> |Join(a, '+')| >= |a[0]| >= 1;
    assert ys != [] ==> |Join(b, '+')| >= |b[0]| >= 1;
    if xs != [] {
      assert forall i :: 0 <= i < |a| ==> Free(a[i], '+');
      assert forall i :: 0 <= i < |b| ==> Free(b[i], '+');
      JoinInjective(a, b, '+');
      forall i | 0 <= i < |xs| ensures xs[i] == ys[i] {
        assert a[i] == b[i];
        IntTextInjective(xs[i], ys[i]);
      }
    }
  }

  lemma NumbersFree(ns: seq<int>)
    ensures Free(Join(IntTexts(ns), '+'), ':') && Free(Join(IntTexts(ns), '+'), '|')
  {
    JoinFree(IntTexts(ns), '+', ':');
    JoinFree(IntTexts(ns), '+', '|');
  }

  lemma FieldsFree(e: Encoded)
    requires Clean(e)
    ensures forall i :: 0 <= i < |Fields(e)| ==> Free(Fields(e)[i], ':') && Free(Fields(e)[i], '|')
  {
    match e
    case Tracking(name, h, metric, i, o) =>
      assert Free(HundredthsText(h), ':') && Free(HundredthsText(h), '|');
    case Stepping(_, _, _, adjustments) => NumbersFree(adjustments);
    case Unknown(_, _) =>
  }

  lemma FieldsInjective(d: Encoded, e: Encoded)
    requires Fields(d) == Fields(e)
    ensures d == e
  {
    var (f, g) := (Fields(d), Fields(e));
    assert f[0] == g[0] && f[1] == g[1] && |f| == |g|;
    match d {
      case Tracking(_, h, _, i, o) =>
        assert f[2] == g[2] && f[3] == g[3] && f[4] == g[4] && f[5] == g[5];
        HundredthsInjective(h, e.hundredths);
        IntTextInjective(i, e.inCooldown);
        IntTextInjective(o, e.outCooldown);
      case Stepping(_, _, cooldown, adjustments) =>
        assert f[2] == g[2] && f[3] == g[3] && f[4] == g[4];
        IntTextInjective(cooldown, e.cooldown);
        IntsInjective(adjustments, e.adjustments);
      case Unknown(_, _) =>
        assert f[2] == g[2];
    }
  }

  lemma PrintInjective(d: Encoded, e: Encoded)
    requires Clean(d) && Clean(e) && Print(d) == Print(e)
    ensures d == e
  {
    FieldsFree(d);
    FieldsFree(e);
    JoinInjective(Fields(d), Fields(e), ':');
    FieldsInjective(d, e);
  }

  lemma PrintsFree(es: seq<Encoded>)
    requires forall e :: e in es ==> Clean(e)
    ensures forall i :: 0 <= i < |es| ==> Free(PrintAll(es)[i], '|') && PrintAll(es)[i] != ""
  {
    forall i | 0 <= i < |es| ensures Free(Print(es[i]), '|') && Print(es[i]) != "" {
      FieldsFree(es[i]);
      JoinFree(Fields(es[i]), ':', '|');
      assert |Fields(es[i])| >= 2;
    }
  }

  lemma JoinedInjective(ds: seq<Encoded>, es: seq<Encoded>)
    requires forall e :: e in ds ==> Clean(e)
    requires forall e :: e in es ==> Clean(e)
    requires Join(PrintAll(ds), '|') == Join(PrintAll(es), '|')
    ensures ds == es
  {
    PrintsFree(ds);
    PrintsFree(es);
    assert ds != [] ==> |Join(PrintAll(ds), '|')| >= |PrintAll(ds)[0]| >= 1;
    assert es != [] ==> |Join(PrintAll(es), '|')| >= |PrintAll(es)[0]| >= 1;
    if ds != [] {
      JoinInjective(PrintAll(ds), PrintAll(es), '|');
      assert |ds| == |PrintAll(ds)| && |es| == |PrintAll(es)|;
      forall i | 0 <= i < |ds| ensures ds[i] == es[i] {
        assert PrintAll(ds)[i] == PrintAll(es)[i];
        PrintInjective(ds[i], es[i]);
      }
    }
  }

  ghost predicate DistinctNames(es: seq<Encoded>) {
    forall i, j :: 0 <= i < j < |es| ==> es[i].name != es[j].name
  }

  /** Equal fingerprints mean equal policies, up to order, on everything that is printed;
      and when names are distinct, equal policies in any order have equal fingerprints. */
  lemma FingerprintDecides(ds: seq<Encoded>, es: seq<Encoded>)
    requires forall e :: e in ds ==> Clean(e)
    requires forall e :: e in es ==> Clean(e)
    ensures Fingerprint(ds) == Fingerprint(es) ==> multiset(ds) == multiset(es)
    ensures DistinctNames(ds) && multiset(ds) == multiset(es) ==> Fingerprint(ds) == Fingerprint(es)
  {
    var (sd, se) := (Sorting.Sort(ds, NameOf), Sorting.Sort(es, NameOf));
    Sorting.SortCorrect(ds, NameOf);
    Sorting.SortCorrect(es, NameOf);
    if Fingerprint(ds) == Fingerprint(es) {
      forall e | e in sd ensures Clean(e) { assert e in multiset(sd) && e in multiset(ds); }
      forall e | e in se ensures Clean(e) { assert e in multiset(se) && e in multiset(es); }
      JoinedInjective(sd, se);
    }
    if DistinctNames(ds) && multiset(ds) == multiset(es) {
      FingerprintIgnoresOrder(ds, es);
    }
  }

  /** The order in which distinctly named policies are listed does not show. */
  lemma FingerprintIgnoresOrder(ds: seq<Encoded>, es: seq<Encoded>)
    requires DistinctNames(ds) && multiset(ds) == multiset(es)
    ensures Fingerprint(ds) == Fingerprint(es)
  {
    forall x, y | x in ds && y in ds && NameOf(x) == NameOf(y) ensures x == y {
      var i :| 0 <= i < |ds| && ds[i] == x;
      var j :| 0 <= j < |ds| && ds[j] == y;
      assert i == j;
    }
    Sorting.SortIgnoresOrder(ds, es, NameOf);
  }

  lemma PrintUnknown(name: string, kind: string)
    ensures Print(Unknown(name, kind)) == name + ":?:" + kind
  {
    var fields := [name, "?", kind];
    assert fields[1..] == ["?", kind] && ["?", kind][1..] == [kind];
    assert Join(["?", kind], ':') == "?" + [':'] + kind;
    assert Join(fields, ':') == name + [':'] + ("?" + [':'] + kind);
    assert name + [':'] + ("?" + [':'] + kind) == name + ":?:" + kind;
  }
}
