/**
The auto-scaling driver's operations as functions of the cloud it reconciles. A call that
fails has no effect; a listing of policies either fails or is complete, in any order.
*/
module AutoScaling {
  import opened Wrappers
  import opened Config
  import opened Policies
  import opened Text
  import Sorting

  datatype Key = Key(ns: string, resource: string, dim: string)

  datatype Target = Target(minCapacity: int, maxCapacity: int, role: string)

  /** What PutScalingPolicy sends. */
  datatype Payload =
    | TrackingPayload(target: real, metric: string, inCooldown: int, outCooldown: int)
    | SteppingPayload(adjustmentType: string, steps: seq<Step>, cooldown: int)

  datatype PolicyID = PolicyID(key: Key, name: string)

  datatype Fate = Fate(ok: bool, names: seq<string>)

  /** A listing that names each live policy of a target once. */
  predicate Complete(names: seq<string>, live: set<PolicyID>, key: Key) {
    && (set n | n in names :: PolicyID(key, n)) == (set id | id in live && id.key == key)
    && (forall i, j | 0 <= i < j < |names| :: names[i] != names[j])
  }

  datatype Cloud = Cloud(fate: nat -> Fate, calls: nat, targets: map<Key, Target>, policies: map<PolicyID, Payload>) {
    function Now(): Fate { fate(calls) }

    function Called(): Cloud { this.(calls := calls + 1) }

    function Register(key: Key, target: Target): (Cloud, bool) {
      (if Now().ok then Called().(targets := targets[key := target]) else Called(), Now().ok)
    }

    function Describe(key: Key): (Cloud, Option<seq<string>>) {
      (Called(), if Now().ok && Complete(Now().names, policies.Keys, key) then Some(Now().names) else None)
    }

    function DescribeTarget(key: Key): (Cloud, Option<Target>) {
      (Called(), if Now().ok then Lookup(targets, key) else None)
    }

    function PutPolicy(id: PolicyID, payload: Payload): (Cloud, bool) {
      (if Now().ok then Called().(policies := policies[id := payload]) else Called(), Now().ok)
    }

    function DeletePolicy(id: PolicyID): (Cloud, bool) {
      var ok := Now().ok && id in policies;
      (if ok then Called().(policies := policies - {id}) else Called(), ok)
    }

    function Deregister(key: Key): (Cloud, bool) {
      var ok := Now().ok && key in targets;
      (if ok then Called().(targets := targets - {key}) else Called(), ok)
    }
  }

  /* ----- identity ----- */

  function EncodeProviderID(key: Key): string { key.ns + "|" + key.resource + "|" + key.dim }

  /** Splitting at the first separator. */
  function Cut(s: string): Option<(string, string)> {
    if s == "" then None
    else if s[0] == '|' then Some(("", s[1..]))
    else
      match Cut(s[1..])
      case None => None
      case Some((head, tail)) => Some(([s[0]] + head, tail))
  }

  /** At most three parts; nothing unless there are three. */
  function DecodeProviderID(s: string): Key {
    match Cut(s)
    case None => Key("", "", "")
    case Some((ns, rest)) =>
      match Cut(rest)
      case None => Key("", "", "")
      case Some((resource, dim)) => Key(ns, resource, dim)
  }

  lemma {:induction false} CutFinds(s: string)
    ensures Cut(s).None? <==> Free(s, '|')
    ensures Cut(s).Some? ==> s == Cut(s).value.0 + "|" + Cut(s).value.1 && Free(Cut(s).value.0, '|')
  {
    if s != "" {
      assert s == [s[0]] + s[1..];
      if s[0] != '|' {
        CutFinds(s[1..]);
        assert Free(s, '|') <==> Free(s[1..], '|') by {
          assert forall i :: 0 <= i < |s[1..]| ==> s[1..][i] == s[i + 1];
        }
        if Cut(s[1..]).Some? {
          var (head, tail) := Cut(s[1..]).value;
          assert s == [s[0]] + (head + "|" + tail);
        }
      }
    }
  }

  /** Cutting after a part free of the separator gives back that part. */
  lemma CutFirst(a: string, rest: string)
    requires Free(a, '|')
    ensures Cut(a + "|" + rest) == Some((a, rest))
  {
    var s := a + "|" + rest;
    assert s[|a|] == '|';
    CutFinds(s);
    var (head, tail) := Cut(s).value;
    assert a + ['|'] + rest == s == head + ['|'] + tail;
    FirstPart(a, head, rest, tail, '|');
  }

  /** An identity survives being printed and read back exactly when namespace and resource
      are free of the separator. */
  lemma ProviderIDRoundTrip(key: Key)
    ensures DecodeProviderID(EncodeProviderID(key)) == key <==> Free(key.ns, '|') && Free(key.resource, '|')
  {
    var s := EncodeProviderID(key);
    assert s == key.ns + "|" + (key.resource + "|" + key.dim);
    CutFinds(s);
    assert s[|key.ns|] == '|';
    var (ns, rest) := Cut(s).value;
    CutFinds(rest);
    if Free(key.ns, '|') {
      CutFirst(key.ns, key.resource + "|" + key.dim);
      assert (key.resource + "|" + key.dim)[|key.resource|] == '|';
      if Free(key.resource, '|') {
        CutFirst(key.resource, key.dim);
      }
    }
  }

  /** And whatever can be read prints back as it was. */
  lemma ProviderIDPrintsBack(s: string)
    ensures DecodeProviderID(s) != Key("", "", "") ==> EncodeProviderID(DecodeProviderID(s)) == s
  {
    CutFinds(s);
    if Cut(s).Some? {
      var (ns, rest) := Cut(s).value;
      CutFinds(rest);
      if Cut(rest).Some? {
        var (resource, dim) := Cut(rest).value;
        assert ns + "|" + (resource + "|" + dim) == ns + "|" + resource + "|" + dim;
      }
    }
  }

  lemma BarsAt(key: Key)
    ensures var (s, p, q) := (EncodeProviderID(key), |key.ns|, |key.ns| + 1 + |key.resource|);
            && q < |s| && s[p] == '|' && s[q] == '|'
            && s[..p] == key.ns && s[p + 1..q] == key.resource && s[q + 1..] == key.dim
            && forall i | 0 <= i < |s| && i != p && i != q :: s[i] in key.ns || s[i] in key.resource || s[i] in key.dim
  {
  }

  /** Two identities print alike only by way of separators in their parts. */
  lemma FreeKeysDiffer(key: Key, other: Key)
    requires Free(key.ns, '|') && Free(key.resource, '|') && Free(key.dim, '|')
    requires EncodeProviderID(other) == EncodeProviderID(key)
    ensures other == key
  {
    BarsAt(key);
    BarsAt(other);
  }

  lemma BarsStand(key: Key)
    ensures var (s, p, q) := (EncodeProviderID(key), |key.ns|, |key.ns| + 1 + |key.resource|);
            q < |s| && s[p] == '|' && s[q] == '|'
  {
  }

  /** The identity a text shows if the separators at two places count. */
  function Reading(s: string, i: nat, j: nat): Key
    requires i < j < |s|
  {
    Key(s[..i], s[i + 1..j], s[j + 1..])
  }

  lemma ReadingPrints(s: string, i: nat, j: nat)
    requires i < j < |s| && s[i] == '|' && s[j] == '|'
    ensures EncodeProviderID(Reading(s, i, j)) == s
    ensures |Reading(s, i, j).ns| == i && |Reading(s, i, j).resource| == j - i - 1
  {
    assert s[..i] + "|" + s[i + 1..j] + "|" + s[j + 1..] == s;
  }

  /** If another of its separators counts, the text shows another identity. */
  lemma TwinPrintsAlike(key: Key, i: nat) returns (twin: Key)
    requires i < |EncodeProviderID(key)| && EncodeProviderID(key)[i] == '|'
    requires i != |key.ns| && i != |key.ns| + 1 + |key.resource|
    ensures EncodeProviderID(twin) == EncodeProviderID(key) && twin != key
  {
    var s, p, q := EncodeProviderID(key), |key.ns|, |key.ns| + 1 + |key.resource|;
    BarsStand(key);
    if i < q {
      ReadingPrints(s, i, q);
      twin := Reading(s, i, q);
    } else {
      ReadingPrints(s, p, i);
      twin := Reading(s, p, i);
    }
  }

  /** A separator inside a part stands at a place of its own in the print. */
  lemma BarInPart(key: Key) returns (i: nat)
    requires !Free(key.ns, '|') || !Free(key.resource, '|') || !Free(key.dim, '|')
    ensures i < |EncodeProviderID(key)| && EncodeProviderID(key)[i] == '|'
    ensures i != |key.ns| && i != |key.ns| + 1 + |key.resource|
  {
    var (s, p, q) := (EncodeProviderID(key), |key.ns|, |key.ns| + 1 + |key.resource|);
    if !Free(key.ns, '|') {
      i :| 0 <= i < |key.ns| && key.ns[i] == '|';
      assert s[i] == key.ns[i];
    } else if !Free(key.resource, '|') {
      var k :| 0 <= k < |key.resource| && key.resource[k] == '|';
      i := p + 1 + k;
      assert s[i] == key.resource[k];
    } else {
      var k :| 0 <= k < |key.dim| && key.dim[k] == '|';
      i := q + 1 + k;
      assert s[i] == key.dim[k];
    }
  }

  /** No other identity prints alike exactly when no part shows the separator. */
  lemma IdentityUniqueIff(key: Key)
    ensures (forall other :: EncodeProviderID(other) == EncodeProviderID(key) ==> other == key) <==>
            Free(key.ns, '|') && Free(key.resource, '|') && Free(key.dim, '|')
  {
    if Free(key.ns, '|') && Free(key.resource, '|') && Free(key.dim, '|') {
      forall other | EncodeProviderID(other) == EncodeProviderID(key) ensures other == key {
        FreeKeysDiffer(key, other);
      }
    } else {
      var i := BarInPart(key);
      var twin := TwinPrintsAlike(key, i);
    }
  }

  /* ----- validation ----- */

  function KeyOf(config: Props): Key {
    Key(StrProp(config, "service_namespace"), StrProp(config, "resource_id"), StrProp(config, "scalable_dimension"))
  }

  predicate HasFields(config: Props) {
    KeyOf(config).ns != "" && KeyOf(config).resource != "" && KeyOf(config).dim != ""
  }

  function ValidateCapacity(config: Props): Option<(int, int)> {
    if "min_capacity" !in config || "max_capacity" !in config then None
    else
      var (lo, hi) := (IntProp(config, "min_capacity", -1), IntProp(config, "max_capacity", -1));
      if lo < 0 || hi < 0 || lo > hi then None else Some((ToInt32(lo), ToInt32(hi)))
  }

  /** What would be sent for a policy, if it is complete for its type. */
  function PayloadOf(p: PolicySpec): Option<Payload> {
    if p.kind == "TargetTrackingScaling" then
      if p.metric == "" || p.target <= 0.0 then None
      else Some(TrackingPayload(p.target, p.metric, p.inCooldown, p.outCooldown))
    else if p.kind == "StepScaling" then
      if p.adjustmentType == "" || p.steps == [] then None
      else Some(SteppingPayload(p.adjustmentType, p.steps, p.cooldown))
    else None
  }

  /* ----- reconciliation ----- */

  function DeleteStale(c: Cloud, key: Key, live: seq<string>, desired: seq<string>): (Cloud, bool)
    decreases |live|
  {
    if live == [] then (c, true)
    else if live[0] in desired then DeleteStale(c, key, live[1..], desired)
    else
      var (c1, ok) := c.DeletePolicy(PolicyID(key, live[0]));
      if !ok then (c1, false) else DeleteStale(c1, key, live[1..], desired)
  }

  /** An incomplete policy stops the upserts before its call. */
  function PutOne(c: Cloud, key: Key, p: PolicySpec): (Cloud, bool) {
    match PayloadOf(p)
    case None => (c, false)
    case Some(payload) => c.PutPolicy(PolicyID(key, p.name), payload)
  }

  function PutAll(c: Cloud, key: Key, ps: seq<PolicySpec>): (Cloud, bool)
    decreases |ps|
  {
    if ps == [] then (c, true)
    else
      var (c1, ok) := PutOne(c, key, ps[0]);
      if !ok then (c1, false) else PutAll(c1, key, ps[1..])
  }

  function SyncPolicies(c: Cloud, config: Props, key: Key, live: seq<string>): (Cloud, bool) {
    match Parse(config)
    case Err(_) => (c, false)
    case Ok(ps) =>
      var (c1, ok) := DeleteStale(c, key, live, PolicyNames(ps));
      if !ok then (c1, false) else PutAll(c1, key, ps)
  }

  datatype Output = Output(
    providerID: string, minCapacity: int, maxCapacity: int,
    policyNames: seq<string>, fingerprint: Option<string>)

  function PolicyConfigFingerprint(config: Props): string { Fingerprint(EncodeAll(Parsed(config))) }

  /** Registering, listing and syncing: what Create and Update share. */
  function Converge(c: Cloud, config: Props): (Cloud, Option<Output>) {
    var key := KeyOf(config);
    match ValidateCapacity(config)
    case None => (c, None)
    case Some((lo, hi)) =>
      var (c1, registered) := c.Register(key, Target(lo, hi, StrProp(config, "role_arn")));
      if !registered then (c1, None)
      else
        var (c2, live) := c1.Describe(key);
        if live.None? then (c2, None)
        else
          var (c3, ok) := SyncPolicies(c2, config, key, live.value);
          (c3, if !ok then None
               else Some(Output(EncodeProviderID(key), lo, hi, PolicyNames(Parsed(config)),
                                Some(PolicyConfigFingerprint(config)))))
  }

  function Create(c: Cloud, config: Props): (Cloud, Option<Output>) {
    if !HasFields(config) then (c, None) else Converge(c, config)
  }

  function Update(c: Cloud, providerID: string, config: Props): (Cloud, Option<Output>) {
    if !HasFields(config) then (c, None)
    else if providerID != "" && providerID != EncodeProviderID(KeyOf(config)) then (c, None)
    else Converge(c, config)
  }

  function Delete(c: Cloud, providerID: string): (Cloud, bool) {
    var key := DecodeProviderID(providerID);
    if key.ns == "" then (c, false)
    else
      var (c1, live) := c.Describe(key);
      if live.None? then (c1, false)
      else
        var (c2, ok) := DeleteStale(c1, key, live.value, []);
        if !ok then (c2, false) else c2.Deregister(key)
  }

  /** What Read reports carries no fingerprint. */
  function Read(c: Cloud, providerID: string): (Cloud, Option<Output>) {
    var key := DecodeProviderID(providerID);
    if key.ns == "" then (c, None)
    else
      var (c1, target) := c.DescribeTarget(key);
      if target.None? then (c1, None)
      else
        var (c2, live) := c1.Describe(key);
        (c2, if live.None? then None
             else Some(Output(EncodeProviderID(key), target.value.minCapacity, target.value.maxCapacity, live.value, None)))
  }

  /* ----- diffing ----- */

  function Itself(s: string): string { s }

  function NamesKey(names: seq<string>): string { Join(Sorting.Sort(names, Itself), ',') }

  function Wanted(config: Props): map<string, string> {
    map["min_capacity" := IntText(IntProp(config, "min_capacity", 0)),
        "max_capacity" := IntText(IntProp(config, "max_capacity", 1)),
        "policy_names" := NamesKey(PolicyNames(Parsed(config))),
        "policy_fingerprint" := PolicyConfigFingerprint(config),
        "provider_id" := EncodeProviderID(KeyOf(config))]
  }

  function Current(out: Output): map<string, string> {
    map["min_capacity" := IntText(out.minCapacity),
        "max_capacity" := IntText(out.maxCapacity),
        "policy_names" := NamesKey(out.policyNames),
        "policy_fingerprint" := if out.fingerprint.Some? then out.fingerprint.value else "",
        "provider_id" := out.providerID]
  }

  /** The outputs a diff reports as changed. */
  function Changed(config: Props, out: Output): set<string> {
    set k | k in Wanted(config) && Lookup(Current(out), k) != Some(Wanted(config)[k])
  }

  /* ----- runs ----- */

  datatype Op = OpCreate(config: Props) | OpUpdate(providerID: string, config: Props) | OpDelete(providerID: string)

  function Apply(c: Cloud, op: Op): Cloud {
    match op
    case OpCreate(config) => Create(c, config).0
    case OpUpdate(providerID, config) => Update(c, providerID, config).0
    case OpDelete(providerID) => Delete(c, providerID).0
  }

  function Run(c: Cloud, ops: seq<Op>): Cloud {
    if ops == [] then c else Apply(Run(c, ops[..|ops| - 1]), ops[|ops| - 1])
  }
}
