/**
The IAM role driver's update as a function of the cloud. A listing of attached policies
names some of them, each once, in any order: the driver asks for one page only, and takes
a listing that fails for an empty one.
*/
module Iam {
  import opened Wrappers
  import opened Config

  datatype Role = Role(arn: string, id: string, description: Option<string>, trust: string, attached: set<string>)

  /** An attach or detach call, whether or not it succeeded. */
  datatype Call =
    | AttachCall(role: string, arn: string, ok: bool)
    | DetachCall(role: string, arn: string, ok: bool)

  datatype Fate = Fate(ok: bool, arns: seq<string>)

  predicate Page(arns: seq<string>, attached: set<string>) {
    && (forall x | x in arns :: x in attached)
    && (forall i, j | 0 <= i < j < |arns| :: arns[i] != arns[j])
  }

  datatype Cloud = Cloud(fate: nat -> Fate, calls: nat, roles: map<string, Role>, log: seq<Call>) {
    function Now(): Fate { fate(calls) }

    function Called(): Cloud { this.(calls := calls + 1) }

    function Attached(name: string): set<string> { if name in roles then roles[name].attached else {} }

    function WithRole(name: string, role: Role): Cloud { Called().(roles := roles[name := role]) }

    function SetTrust(name: string, trust: string): (Cloud, bool) {
      var ok := Now().ok && name in roles;
      (if ok then WithRole(name, roles[name].(trust := trust)) else Called(), ok)
    }

    function GetRole(name: string): (Cloud, Option<Role>) {
      (Called(), if Now().ok && name in roles then Some(roles[name]) else None)
    }

    function ListAttached(name: string): (Cloud, Option<seq<string>>) {
      (Called(), if Now().ok && Page(Now().arns, Attached(name)) then Some(Now().arns) else None)
    }

    /** Attaching what is attached changes nothing. */
    function Attach(name: string, arn: string): (Cloud, bool) {
      var ok := Now().ok && name in roles;
      var c := if ok then WithRole(name, roles[name].(attached := roles[name].attached + {arn})) else Called();
      (c.(log := log + [AttachCall(name, arn, ok)]), ok)
    }

    /** Detaching what is not attached fails. */
    function Detach(name: string, arn: string): (Cloud, bool) {
      var ok := Now().ok && arn in Attached(name);
      var c := if ok then WithRole(name, roles[name].(attached := roles[name].attached - {arn})) else Called();
      (c.(log := log + [DetachCall(name, arn, ok)]), ok)
    }
  }

  datatype Output = Output(name: string, providerID: string, outputs: Props)

  function RoleOutputs(role: Role): Props {
    var outputs := map["arn" := Str(role.arn), "role_id" := Str(role.id)];
    if role.description.Some? then outputs["description" := Str(role.description.value)] else outputs
  }

  /** Only the call for the role itself can fail a read. */
  function Read(c: Cloud, name: string): (Cloud, Option<Output>) {
    var (c1, role) := c.GetRole(name);
    if role.None? then (c1, None)
    else
      var (c2, page) := c1.ListAttached(name);
      var outputs := RoleOutputs(role.value);
      (c2, Some(Output(name, role.value.arn, if page.Some? then outputs["policy_arns" := Strs(page.value)] else outputs)))
  }

  function AttachAll(c: Cloud, name: string, arns: seq<string>): (Cloud, bool)
    decreases |arns|
  {
    if arns == [] then (c, true)
    else
      var (c1, ok) := c.Attach(name, arns[0]);
      if !ok then (c1, false) else AttachAll(c1, name, arns[1..])
  }

  function DetachAll(c: Cloud, name: string, arns: seq<string>): (Cloud, bool)
    decreases |arns|
  {
    if arns == [] then (c, true)
    else
      var (c1, ok) := c.Detach(name, arns[0]);
      if !ok then (c1, false) else DetachAll(c1, name, arns[1..])
  }

  function Trust(c: Cloud, name: string, config: Props): (Cloud, bool) {
    var trust := StrProp(config, "assume_role_policy");
    if trust == "" then (c, true) else c.SetTrust(name, trust)
  }

  /** What is desired and not listed is attached, then what is listed and not desired detached. */
  function Sync(c: Cloud, name: string, desired: seq<string>, listed: seq<string>): (Cloud, bool) {
    var (c1, ok) := AttachAll(c, name, Without(desired, listed));
    if !ok then (c1, false) else DetachAll(c1, name, Without(listed, desired))
  }

  function Update(c: Cloud, name: string, config: Props): (Cloud, Option<Output>) {
    var (c1, trusted) := Trust(c, name, config);
    if !trusted then (c1, None)
    else
      var (c2, current) := Read(c1, name);
      if current.None? then (c2, None)
      else
        var (c3, ok) := Sync(c2, name, Desired(config), StringSliceProp(current.value.outputs, "policy_arns"));
        if !ok then (c3, None) else Read(c3, name)
  }

  function Desired(config: Props): seq<string> { StringSliceProp(config, "policy_arns") }

  /** The policies an update works from: what its read of the role lists. */
  function Listed(c: Cloud, name: string, config: Props): seq<string> {
    var current := Read(Trust(c, name, config).0, name).1;
    if current.None? then [] else StringSliceProp(current.value.outputs, "policy_arns")
  }

  /** Whether an update gets past the calls that come before its attaches and detaches. */
  predicate Reaches(c: Cloud, name: string, config: Props) {
    Trust(c, name, config).1 && Read(Trust(c, name, config).0, name).1.Some?
  }

  function Set(xs: seq<string>): set<string> { set x | x in xs }

  /** What a history of calls leaves attached. */
  function Replay(attached: set<string>, calls: seq<Call>): set<string> {
    if calls == [] then attached
    else
      var before := Replay(attached, calls[..|calls| - 1]);
      match calls[|calls| - 1]
      case AttachCall(_, arn, ok) => if ok then before + {arn} else before
      case DetachCall(_, arn, ok) => if ok then before - {arn} else before
  }

  /** The calls on `name` between two points, all attaches before all detaches, attaching
      only desired policies that were not listed and detaching only listed ones that are not desired. */
  predicate Orderly(added: seq<Call>, name: string, desired: seq<string>, listed: seq<string>) {
    && (forall call | call in added :: call.role == name)
    && (forall call | call in added ::
          if call.AttachCall? then call.arn in desired && call.arn !in listed
          else call.arn in listed && call.arn !in desired)
    && (forall i, j | 0 <= i < j < |added| :: added[i].DetachCall? ==> added[j].DetachCall?)
  }

  /** `c'` is `c` after the calls `added` on `name` (and calls that are not logged). */
  ghost predicate Follows(c: Cloud, c': Cloud, name: string, added: seq<Call>) {
    && c'.log == c.log + added
    && c'.roles.Keys == c.roles.Keys
    && c'.Attached(name) == Replay(c.Attached(name), added)
    && (forall other :: other in c.roles && other != name ==> c'.roles[other] == c.roles[other])
    && (name in c.roles ==> c'.roles[name].(trust := "", attached := {}) == c.roles[name].(trust := "", attached := {}))
  }

  lemma {:induction false} ReplayAppend(attached: set<string>, xs: seq<Call>, ys: seq<Call>)
    ensures Replay(attached, xs + ys) == Replay(Replay(attached, xs), ys)
  {
    if ys == [] {
      assert xs + ys == xs;
    } else {
      assert (xs + ys)[..|xs + ys| - 1] == xs + ys[..|ys| - 1];
      ReplayAppend(attached, xs, ys[..|ys| - 1]);
    }
  }

  lemma FollowsBoth(c: Cloud, c1: Cloud, c2: Cloud, name: string, xs: seq<Call>, ys: seq<Call>)
    requires Follows(c, c1, name, xs) && Follows(c1, c2, name, ys)
    ensures Follows(c, c2, name, xs + ys)
  {
    ReplayAppend(c.Attached(name), xs, ys);
    assert c.log + xs + ys == c.log + (xs + ys);
  }

  lemma OneCall(c: Cloud, name: string, arn: string)
    ensures Follows(c, c.Attach(name, arn).0, name, [AttachCall(name, arn, c.Attach(name, arn).1)])
    ensures Follows(c, c.Detach(name, arn).0, name, [DetachCall(name, arn, c.Detach(name, arn).1)])
    ensures c.Attach(name, arn).1 ==> name in c.roles
  {
    var before := c.Attached(name);
    assert Replay(before, []) == before;
    var (a, d) := (AttachCall(name, arn, c.Attach(name, arn).1), DetachCall(name, arn, c.Detach(name, arn).1));
    assert [a][..0] == [] && [d][..0] == [];
  }

  lemma {:induction false} AttachAllCalls(c: Cloud, name: string, arns: seq<string>) returns (added: seq<Call>)
    ensures Follows(c, AttachAll(c, name, arns).0, name, added)
    ensures forall call | call in added :: call.AttachCall? && call.role == name && call.arn in arns
    ensures AttachAll(c, name, arns).1 ==> AttachAll(c, name, arns).0.Attached(name) == c.Attached(name) + Set(arns)
    ensures added == [] <==> arns == []
    decreases |arns|
  {
    added := [];
    if arns == [] {
      assert c.Attached(name) + Set(arns) == c.Attached(name);
      assert c.log + [] == c.log;
    } else {
      var (c1, ok) := c.Attach(name, arns[0]);
      OneCall(c, name, arns[0]);
      added := [AttachCall(name, arns[0], ok)];
      if ok {
        var more := AttachAllCalls(c1, name, arns[1..]);
        FollowsBoth(c, c1, AttachAll(c1, name, arns[1..]).0, name, added, more);
        added := added + more;
        assert Set(arns) == {arns[0]} + Set(arns[1..]);
      }
    }
  }

  lemma {:induction false} DetachAllCalls(c: Cloud, name: string, arns: seq<string>) returns (added: seq<Call>)
    ensures Follows(c, DetachAll(c, name, arns).0, name, added)
    ensures forall call | call in added :: call.DetachCall? && call.role == name && call.arn in arns
    ensures DetachAll(c, name, arns).1 ==> DetachAll(c, name, arns).0.Attached(name) == c.Attached(name) - Set(arns)
    ensures added == [] <==> arns == []
    decreases |arns|
  {
    added := [];
    if arns == [] {
      assert c.Attached(name) - Set(arns) == c.Attached(name);
      assert c.log + [] == c.log;
    } else {
      var (c1, ok) := c.Detach(name, arns[0]);
      OneCall(c, name, arns[0]);
      added := [DetachCall(name, arns[0], ok)];
      if ok {
        var more := DetachAllCalls(c1, name, arns[1..]);
        FollowsBoth(c, c1, DetachAll(c1, name, arns[1..]).0, name, added, more);
        added := added + more;
        assert Set(arns) == {arns[0]} + Set(arns[1..]);
      }
    }
  }

  lemma OrderlyBoth(xs: seq<Call>, ys: seq<Call>, name: string, desired: seq<string>, listed: seq<string>)
    requires forall call | call in xs :: call.AttachCall? && call.role == name && call.arn in Without(desired, listed)
    requires forall call | call in ys :: call.DetachCall? && call.role == name && call.arn in Without(listed, desired)
    ensures Orderly(xs + ys, name, desired, listed)
  {
    WithoutIs(desired, listed);
    WithoutIs(listed, desired);
    var both := xs + ys;
    forall i, j | 0 <= i < j < |both| ensures both[i].DetachCall? ==> both[j].DetachCall? {
      assert i < |xs| ==> both[i] in xs;
      assert i >= |xs| ==> both[j] in ys;
    }
  }

  lemma NothingWithout(a: seq<string>, b: seq<string>)
    ensures Without(a, b) == [] <==> Set(a) <= Set(b)
  {
    WithoutIs(a, b);
    if Without(a, b) != [] {
      assert Without(a, b)[0] in Without(a, b);
      assert Without(a, b)[0] in Set(a) && Without(a, b)[0] !in Set(b);
    } else {
      forall x | x in Set(a) ensures x in Set(b) { assert x !in Without(a, b); }
    }
  }

  lemma SyncHistory(c: Cloud, name: string, desired: seq<string>, listed: seq<string>)
    returns (attaches: seq<Call>, detaches: seq<Call>)
    ensures Follows(c, Sync(c, name, desired, listed).0, name, attaches + detaches)
    ensures forall call | call in attaches :: call.AttachCall? && call.role == name && call.arn in Without(desired, listed)
    ensures forall call | call in detaches :: call.DetachCall? && call.role == name && call.arn in Without(listed, desired)
    ensures attaches + detaches == [] <==> Without(desired, listed) == [] && Without(listed, desired) == []
  {
    var (missing, stale) := (Without(desired, listed), Without(listed, desired));
    var (c1, ok) := AttachAll(c, name, missing);
    attaches := AttachAllCalls(c, name, missing);
    if ok {
      detaches := DetachAllCalls(c1, name, stale);
      FollowsBoth(c, c1, DetachAll(c1, name, stale).0, name, attaches, detaches);
    } else {
      detaches := [];
      assert attaches + [] == attaches;
    }
  }

  lemma SyncCalls(c: Cloud, name: string, desired: seq<string>, listed: seq<string>) returns (added: seq<Call>)
    ensures Follows(c, Sync(c, name, desired, listed).0, name, added)
    ensures Orderly(added, name, desired, listed)
    ensures added == [] <==> Set(desired) == Set(listed)
  {
    var attaches, detaches := SyncHistory(c, name, desired, listed);
    OrderlyBoth(attaches, detaches, name, desired, listed);
    NothingWithout(desired, listed);
    NothingWithout(listed, desired);
    added := attaches + detaches;
  }

  lemma SyncSucceeds(c: Cloud, name: string, desired: seq<string>, listed: seq<string>)
    requires Set(listed) <= c.Attached(name) && Sync(c, name, desired, listed).1
    ensures Sync(c, name, desired, listed).0.Attached(name) == Set(desired) + (c.Attached(name) - Set(listed))
  {
    var c1 := AttachAll(c, name, Without(desired, listed)).0;
    var _ := AttachAllCalls(c, name, Without(desired, listed));
    var _ := DetachAllCalls(c1, name, Without(listed, desired));
    WithoutIs(desired, listed);
    WithoutIs(listed, desired);
  }

  /** Neither the trust policy nor a read touches what is attached. */
  lemma BeforeSync(c: Cloud, name: string, config: Props)
    ensures Follows(c, Trust(c, name, config).0, name, [])
    ensures Follows(c, Read(Trust(c, name, config).0, name).0, name, [])
    ensures Set(Listed(c, name, config)) <= c.Attached(name)
  {
    assert c.log + [] == c.log;
  }

  lemma ReadFollows(c: Cloud, name: string)
    ensures Follows(c, Read(c, name).0, name, [])
  {
    assert c.log + [] == c.log;
  }

  /** Whatever happens to an update, what it did to the role is exactly its attach and
      detach calls: in order, and none when what is listed is what is desired. */
  lemma UpdateCalls(c: Cloud, name: string, config: Props) returns (added: seq<Call>)
    ensures Follows(c, Update(c, name, config).0, name, added)
    ensures Orderly(added, name, Desired(config), Listed(c, name, config))
    ensures added == [] <==> !Reaches(c, name, config) || Set(Desired(config)) == Set(Listed(c, name, config))
  {
    added := [];
    BeforeSync(c, name, config);
    if Reaches(c, name, config) {
      var c2 := Read(Trust(c, name, config).0, name).0;
      var (desired, listed) := (Desired(config), Listed(c, name, config));
      var (c3, ok) := Sync(c2, name, desired, listed);
      added := SyncCalls(c2, name, desired, listed);
      FollowsBoth(c, c2, c3, name, [], added);
      assert [] + added == added;
      if ok {
        ReadFollows(c3, name);
        FollowsBoth(c, c3, Read(c3, name).0, name, added, []);
        assert added + [] == added;
      }
    }
  }

  /** No call of an update detaches a policy that stays, or attaches one nobody wants: at
      every point of the history what is attached lies between what was attached and
      desired, and what was attached or desired. */
  lemma {:induction false} OrderlyReplay(attached: set<string>, added: seq<Call>, name: string,
                                         desired: seq<string>, listed: seq<string>)
    requires Orderly(added, name, desired, listed)
    ensures attached * Set(desired) <= Replay(attached, added) <= attached + Set(desired)
  {
    if added != [] {
      var init := added[..|added| - 1];
      assert forall call | call in init :: call in added;
      OrderlyReplay(attached, init, name, desired, listed);
      assert added[|added| - 1] in added;
    }
  }

  lemma UpdateKeepsWanted(c: Cloud, name: string, config: Props) returns (added: seq<Call>)
    ensures Follows(c, Update(c, name, config).0, name, added)
    ensures forall k | 0 <= k <= |added| ::
              c.Attached(name) * Set(Desired(config)) <= Replay(c.Attached(name), added[..k]) <= c.Attached(name) + Set(Desired(config))
  {
    added := UpdateCalls(c, name, config);
    forall k | 0 <= k <= |added|
      ensures c.Attached(name) * Set(Desired(config)) <= Replay(c.Attached(name), added[..k]) <= c.Attached(name) + Set(Desired(config))
    {
      assert forall call | call in added[..k] :: call in added;
      OrderlyReplay(c.Attached(name), added[..k], name, Desired(config), Listed(c, name, config));
    }
  }

  /** A successful update leaves the desired policies and those the listing hid. */
  lemma UpdateReconciles(c: Cloud, name: string, config: Props)
    requires Update(c, name, config).1.Some?
    ensures Update(c, name, config).0.Attached(name) ==
              Set(Desired(config)) + (c.Attached(name) - Set(Listed(c, name, config)))
  {
    BeforeSync(c, name, config);
    var c2 := Read(Trust(c, name, config).0, name).0;
    SyncSucceeds(c2, name, Desired(config), Listed(c, name, config));
    ReadFollows(Sync(c2, name, Desired(config), Listed(c, name, config)).0, name);
  }

  /** So success means convergence exactly when every attached policy that is not desired
      was listed; a listing that fails hides them all. */
  lemma UpdateConvergesIff(c: Cloud, name: string, config: Props)
    requires Update(c, name, config).1.Some?
    ensures Update(c, name, config).0.Attached(name) == Set(Desired(config)) <==>
              c.Attached(name) - Set(Desired(config)) <= Set(Listed(c, name, config))
  {
    UpdateReconciles(c, name, config);
  }

  /** With complete listings, an update that succeeded attaches and detaches nothing when it
      is run again, however that run ends. */
  lemma UpdateAgainIsQuiet(c: Cloud, name: string, config: Props, again: Cloud)
    requires Update(c, name, config).1.Some?
    requires Set(Listed(c, name, config)) == c.Attached(name)
    requires again.roles == Update(c, name, config).0.roles
    requires Reaches(again, name, config) ==> Set(Listed(again, name, config)) == again.Attached(name)
    ensures Update(again, name, config).0.log == again.log
    ensures Update(again, name, config).0.Attached(name) == Set(Desired(config))
  {
    UpdateConvergesIff(c, name, config);
    var added := UpdateCalls(again, name, config);
  }

  /** A role with two policies, of which one is desired, and a listing that fails. */
  lemma HiddenPolicyStays(config: Props, c: Cloud)
    requires config == map["policy_arns" := Strs(["kept"])]
    requires c == Cloud(n => Fate(n != 1, []), 0, map["role" := Role("arn", "id", None, "", {"kept", "unwanted"})], [])
    ensures Update(c, "role", config).1.Some?
    ensures Update(c, "role", config).0.Attached("role") == {"kept", "unwanted"}
  {
    assert StringSliceProp(config, "policy_arns") == ["kept"];
    assert Without(["kept"], []) == ["kept"] + Without([], []) by { assert ["kept"][1..] == []; }
    var c2 := Read(c, "role").0;
    assert Listed(c, "role", config) == [];
    var (c3, ok) := c2.Attach("role", "kept");
    assert ["kept"][1..] == [];
    assert AttachAll(c2, "role", ["kept"]) == (c3, true);
    assert Sync(c2, "role", ["kept"], []) == (c3, true);
    assert Update(c, "role", config).1.Some?;
    UpdateReconciles(c, "role", config);
  }

  /* ----- what a role is given ----- */

  /** An update that succeeds has set the trust policy the configuration gives, if any. */
  lemma UpdateSetsTrust(c: Cloud, name: string, config: Props)
    requires Update(c, name, config).1.Some?
    ensures var c' := Update(c, name, config).0;
            && name in c.roles && name in c'.roles
            && c'.roles[name].trust ==
                 if "assume_role_policy" in config && config["assume_role_policy"].Str? && config["assume_role_policy"].s != ""
                 then config["assume_role_policy"].s else c.roles[name].trust
  {
    var (c1, _) := Trust(c, name, config);
    var c2 := Read(c1, name).0;
    SyncKeepsTrust(c2, name, Desired(config), Listed(c, name, config));
  }

  lemma {:induction false} AttachesKeepTrust(c: Cloud, name: string, arns: seq<string>)
    requires name in c.roles
    ensures var c' := AttachAll(c, name, arns).0; name in c'.roles && c'.roles[name].trust == c.roles[name].trust
    decreases |arns|
  {
    if arns != [] && c.Attach(name, arns[0]).1 { AttachesKeepTrust(c.Attach(name, arns[0]).0, name, arns[1..]); }
  }

  lemma {:induction false} DetachesKeepTrust(c: Cloud, name: string, arns: seq<string>)
    requires name in c.roles
    ensures var c' := DetachAll(c, name, arns).0; name in c'.roles && c'.roles[name].trust == c.roles[name].trust
    decreases |arns|
  {
    if arns != [] && c.Detach(name, arns[0]).1 { DetachesKeepTrust(c.Detach(name, arns[0]).0, name, arns[1..]); }
  }

  lemma SyncKeepsTrust(c: Cloud, name: string, desired: seq<string>, listed: seq<string>)
    requires name in c.roles
    ensures var c' := Sync(c, name, desired, listed).0; name in c'.roles && c'.roles[name].trust == c.roles[name].trust
  {
    AttachesKeepTrust(c, name, Without(desired, listed));
    DetachesKeepTrust(AttachAll(c, name, Without(desired, listed)).0, name, Without(listed, desired));
  }

  /** What a read reports of a role, key by key. */
  lemma ReadReports(c: Cloud, name: string, key: string)
    ensures var (c', out) := Read(c, name);
            && (c.fate(c.calls).ok && name in c.roles ==> out.Some?) && c'.roles == c.roles && c'.log == c.log
            && (out.Some? ==>
                  && name in c.roles && out.value.name == name && out.value.providerID == c.roles[name].arn
                  && var (role, page) := (c.roles[name], c.Called().ListAttached(name).1);
                     Lookup(out.value.outputs, key) ==
                       if key == "arn" then Some(Str(role.arn))
                       else if key == "role_id" then Some(Str(role.id))
                       else if key == "description" && role.description.Some? then Some(Str(role.description.value))
                       else if key == "policy_arns" && page.Some? then Some(Strs(page.value))
                       else None)
  {
  }

  /* ----- when an update succeeds ----- */

  lemma {:induction false} AttachesSucceed(c: Cloud, name: string, arns: seq<string>)
    requires name in c.roles && forall n: nat | n >= c.calls :: c.fate(n).ok
    ensures var (c', ok) := AttachAll(c, name, arns);
            && ok && c'.fate == c.fate && c'.calls >= c.calls && name in c'.roles && c.Attached(name) <= c'.Attached(name)
    decreases |arns|
  {
    if arns != [] { AttachesSucceed(c.Attach(name, arns[0]).0, name, arns[1..]); }
  }

  lemma {:induction false} DetachesSucceed(c: Cloud, name: string, arns: seq<string>)
    requires name in c.roles && forall n: nat | n >= c.calls :: c.fate(n).ok
    requires Set(arns) <= c.Attached(name) && forall i, j | 0 <= i < j < |arns| :: arns[i] != arns[j]
    ensures var (c', ok) := DetachAll(c, name, arns); ok && c'.fate == c.fate && c'.calls >= c.calls && name in c'.roles
    decreases |arns|
  {
    if arns != [] {
      assert arns[0] in Set(arns) && Set(arns[1..]) <= Set(arns) && arns[0] !in arns[1..];
      DetachesSucceed(c.Detach(name, arns[0]).0, name, arns[1..]);
    }
  }

  lemma SyncCompletes(c: Cloud, name: string, desired: seq<string>, listed: seq<string>)
    requires name in c.roles && (forall n: nat | n >= c.calls :: c.fate(n).ok) && Page(listed, c.Attached(name))
    ensures var (c', ok) := Sync(c, name, desired, listed); ok && c'.fate == c.fate && c'.calls >= c.calls && name in c'.roles
  {
    WithoutIs(desired, listed);
    WithoutIs(listed, desired);
    var c1 := AttachAll(c, name, Without(desired, listed)).0;
    AttachesSucceed(c, name, Without(desired, listed));
    assert Set(Without(listed, desired)) <= c.Attached(name);
    DetachesSucceed(c1, name, Without(listed, desired));
  }

  /** An update whose calls go through succeeds exactly if the role exists, whatever its
      listings name. */
  lemma UpdateSucceedsIff(c: Cloud, name: string, config: Props)
    requires forall n: nat | n >= c.calls :: c.fate(n).ok
    ensures Update(c, name, config).1.Some? <==> name in c.roles
  {
    var (c1, trusted) := Trust(c, name, config);
    assert c1.roles.Keys == c.roles.Keys && c1.fate == c.fate && c1.calls >= c.calls;
    if name in c.roles {
      var c2 := Read(c1, name).0;
      BeforeSync(c, name, config);
      ListedIsPage(c, name, config);
      SyncCompletes(c2, name, Desired(config), Listed(c, name, config));
    }
  }

  lemma ListedIsPage(c: Cloud, name: string, config: Props)
    ensures Page(Listed(c, name, config), c.Attached(name))
  {
  }

  /** With a complete listing, a policy is attached after an update exactly if the
      configuration names it. */
  lemma AttachedAsConfigured(c: Cloud, name: string, config: Props, arn: string)
    requires Update(c, name, config).1.Some? && Set(Listed(c, name, config)) == c.Attached(name)
    ensures arn in Update(c, name, config).0.Attached(name) <==>
              "policy_arns" in config &&
              match config["policy_arns"] case Strs(arns) => arn in arns case List(items) => Str(arn) in items case _ => false
  {
    UpdateReconciles(c, name, config);
    StringsAre(config, "policy_arns", arn);
  }
}
