/** Decoded configuration values and how the drivers read them. */
module Config {
  import opened Wrappers

  datatype Value =
    | Int(n: int) | Int32(n: int) | Int64(n: int)
    | Float(r: real)
    | Str(s: string)
    | Bool(b: bool)
    | Strs(strs: seq<string>)
    | List(items: seq<Value>)
    | Map(m: map<string, Value>)

  type Props = map<string, Value>

  /** A Go conversion of a float to an int drops the fraction. */
  function Truncate(r: real): int {
    if r >= 0.0 then r.Floor else -((-r).Floor)
  }

  /** int32(n): what a Go conversion keeps of an int. */
  function ToInt32(n: int): (r: int)
    ensures -0x8000_0000 <= r < 0x8000_0000
    ensures r == n <==> -0x8000_0000 <= n < 0x8000_0000
  {
    var low := n % 0x1_0000_0000;
    if low < 0x8000_0000 then low else low - 0x1_0000_0000
  }

  /** The conversion wraps: it differs from its argument by a multiple of 2^32. */
  lemma ToInt32Wraps(n: int)
    ensures (ToInt32(n) - n) % 0x1_0000_0000 == 0
  {
    var q := n / 0x1_0000_0000;
    assert n % 0x1_0000_0000 - n == -q * 0x1_0000_0000;
  }

  function IntProp(props: Props, key: string, default: int): int {
    match Lookup<string, Value>(props, key)
    case Some(Int(n)) => n
    case Some(Int32(n)) => n
    case Some(Int64(n)) => n
    case Some(Float(r)) => Truncate(r)
    case _ => default
  }

  /** A string property, empty when absent or of another type. */
  function StrProp(props: Props, key: string): string {
    match Lookup<string, Value>(props, key)
    case Some(Str(s)) => s
    case _ => ""
  }

  /** A number as a float64, where the source accepts one. */
  function NumberOf(v: Value): Option<real> {
    match v
    case Float(r) => Some(r)
    case Int(n) => Some(n as real)
    case Int64(n) => Some(n as real)
    case _ => None
  }

  function OnlyStrings(items: seq<Value>): seq<string> {
    if items == [] then []
    else (if items[0].Str? then [items[0].s] else []) + OnlyStrings(items[1..])
  }

  /** stringSliceProp: a list of strings, skipping what is not a string. */
  function StringSliceProp(props: Props, key: string): seq<string> {
    match Lookup<string, Value>(props, key)
    case Some(Strs(ss)) => ss
    case Some(List(items)) => OnlyStrings(items)
    case _ => []
  }

  /** Truncation keeps the sign and what is before the point. */
  lemma TruncateIs(r: real)
    ensures var n := Truncate(r) as real;
            if r >= 0.0 then 0.0 <= n <= r && r < n + 1.0 else r <= n <= 0.0 && n - 1.0 < r
  {
  }

  /** `at` lists, in order, all places of a list that hold a string. */
  ghost predicate StringPlaces(items: seq<Value>, at: seq<nat>) {
    && (forall j | 0 <= j < |at| :: at[j] < |items| && items[at[j]].Str?)
    && (forall i, j | 0 <= i < j < |at| :: at[i] < at[j])
    && (forall k: nat | k < |items| && items[k].Str? :: k in at)
  }

  lemma PlacesBefore(items: seq<Value>, at: seq<nat>)
    requires items != [] && StringPlaces(items[..|items| - 1], at)
    ensures var n: nat := |items| - 1; StringPlaces(items, if items[n].Str? then at + [n] else at)
  {
    var n: nat := |items| - 1;
    var at' := if items[n].Str? then at + [n] else at;
    forall k: nat | k < |items| && items[k].Str? ensures k in at' {
      if k < n {
        assert items[..n][k] == items[k];
        assert k in at;
      } else {
        assert at'[|at'| - 1] == n;
      }
    }
  }

  ghost predicate StringsAt(items: seq<Value>, at: seq<nat>, strings: seq<string>) {
    |strings| == |at| && forall j | 0 <= j < |at| :: at[j] < |items| && items[at[j]] == Str(strings[j])
  }

  lemma StringsBefore(items: seq<Value>, at: seq<nat>, strings: seq<string>)
    requires items != [] && StringsAt(items[..|items| - 1], at, strings)
    ensures var n: nat := |items| - 1;
            StringsAt(items, if items[n].Str? then at + [n] else at, strings + StringIn(items[n]))
  {
    assert strings + [] == strings;
  }

  lemma {:induction false} OnlyStringsLast(items: seq<Value>, v: Value)
    ensures OnlyStrings(items + [v]) == OnlyStrings(items) + StringIn(v)
  {
    if items == [] {
      assert items + [v] == [v] && [v][1..] == [];
    } else {
      assert (items + [v])[1..] == items[1..] + [v];
      OnlyStringsLast(items[1..], v);
    }
  }

  /** What is read of a list is the strings at all places that hold one, in order. */
  lemma {:induction false} StringsKept(items: seq<Value>) returns (at: seq<nat>)
    ensures StringPlaces(items, at) && StringsAt(items, at, OnlyStrings(items))
    decreases |items|
  {
    at := [];
    if items != [] {
      var n: nat := |items| - 1;
      at := StringsKept(items[..n]);
      assert items == items[..n] + [items[n]];
      OnlyStringsLast(items[..n], items[n]);
      PlacesBefore(items, at);
      StringsBefore(items, at, OnlyStrings(items[..n]));
      if items[n].Str? { at := at + [n]; }
    }
  }

  /** Which strings a list property has. */
  lemma StringsAre(props: Props, key: string, s: string)
    ensures s in StringSliceProp(props, key) <==>
              key in props && match props[key] case Strs(ss) => s in ss case List(items) => Str(s) in items case _ => false
  {
    if key in props && props[key].List? {
      var items := props[key].items;
      var at := StringsKept(items);
      if Str(s) in items {
        var k: nat :| k < |items| && items[k] == Str(s);
        var j :| 0 <= j < |at| && at[j] == k;
        assert OnlyStrings(items)[j] == s;
      }
    }
  }

  function StringIn(v: Value): seq<string> { if v.Str? then [v.s] else [] }

  lemma Regroup(a: seq<string>, b: seq<string>, c: seq<string>)
    ensures a + (b + c) == a + b + c
  {
  }

  lemma OnlyStringsStep(items: seq<Value>, i: nat)
    requires i < |items|
    ensures OnlyStrings(items[i..]) == StringIn(items[i]) + OnlyStrings(items[i + 1..])
  {
    assert items[i..][1..] == items[i + 1..];
  }

  method StringSlice(props: Props, key: string) returns (result: seq<string>)
    ensures result == StringSliceProp(props, key)
  {
    if key !in props { return []; }
    match props[key] {
      case Strs(ss) => return ss;
      case List(items) => result := StringsOf(items);
      case _ => return [];
    }
  }

  method StringsOf(items: seq<Value>) returns (result: seq<string>)
    ensures result == OnlyStrings(items)
  {
    result := [];
    var i := 0;
    assert items[0..] == items;
    while i < |items|
      invariant 0 <= i <= |items|
      invariant result + OnlyStrings(items[i..]) == OnlyStrings(items)
    {
      OnlyStringsStep(items, i);
      Regroup(result, StringIn(items[i]), OnlyStrings(items[i + 1..]));
      result := result + StringIn(items[i]);
      i := i + 1;
    }
    assert items[i..] == [] && result + [] == result;
  }

  /** diffSlice: the elements of a that b lacks, in order. */
  function Without(a: seq<string>, b: seq<string>): seq<string> {
    if a == [] then []
    else (if a[0] in b then [] else [a[0]]) + Without(a[1..], b)
  }

  lemma {:induction false} WithoutIs(a: seq<string>, b: seq<string>)
    ensures forall x :: x in Without(a, b) <==> x in a && x !in b
    ensures (forall i, j :: 0 <= i < j < |a| ==> a[i] != a[j]) ==>
              forall i, j :: 0 <= i < j < |Without(a, b)| ==> Without(a, b)[i] != Without(a, b)[j]
  {
    if a != [] {
      WithoutIs(a[1..], b);
      assert a == [a[0]] + a[1..];
      if forall i, j :: 0 <= i < j < |a| ==> a[i] != a[j] {
        assert a[0] !in a[1..];
      }
    }
  }

  lemma WithoutStep(a: seq<string>, i: nat, b: seq<string>)
    requires i < |a|
    ensures Without(a[i..], b) == (if a[i] in b then [] else [a[i]]) + Without(a[i + 1..], b)
  {
    assert a[i..][1..] == a[i + 1..];
  }

  method DiffSlice(a: seq<string>, b: seq<string>) returns (diff: seq<string>)
    ensures diff == Without(a, b)
  {
    var bSet := set x | x in b;
    diff := [];
    var i := 0;
    assert a[0..] == a;
    while i < |a|
      invariant 0 <= i <= |a|
      invariant diff + Without(a[i..], b) == Without(a, b)
    {
      WithoutStep(a, i, b);
      var more := if a[i] !in bSet then [a[i]] else [];
      Regroup(diff, more, Without(a[i + 1..], b));
      diff := diff + more;
      i := i + 1;
    }
    assert a[i..] == [] && diff + [] == diff;
  }

  /** A field change on printed values: what was there, if anything, and what is wanted. */
  datatype Change = Change(path: string, was: Option<string>, wanted: string)

  function ChangesOf(desired: map<string, string>, current: map<string, string>): set<Change> {
    set k | k in desired && Lookup(current, k) != Some(desired[k]) :: Change(k, Lookup(current, k), desired[k])
  }

  /** diffOutputs: ranges over the desired values in any order. */
  method DiffOutputs(desired: map<string, string>, current: map<string, string>) returns (changes: set<Change>)
    ensures changes == ChangesOf(desired, current)
  {
    changes := {};
    var rest := desired.Keys;
    while rest != {}
      invariant rest <= desired.Keys
      invariant changes == set ch | ch in ChangesOf(desired, current) && ch.path !in rest
      decreases rest
    {
      var k :| k in rest;
      if k !in current || current[k] != desired[k] {
        changes := changes + {Change(k, Lookup(current, k), desired[k])};
      }
      rest := rest - {k};
    }
  }
}
