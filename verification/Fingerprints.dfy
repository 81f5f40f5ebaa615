/** When the fingerprint, next to the names, shows all it prints of the policies. */
module Fingerprints {
  import opened Wrappers
  import opened Config
  import opened Policies
  import opened AutoScaling
  import opened Reconciliation
  import opened Diffing
  import opened Printing
  import opened PrintedLists
  import opened Text
  import Mapping
  import Sorting

  /* ----- the fingerprint next to the names ----- */

  function Encodings(config: Props): seq<Encoded> { EncodeAll(Parsed(config)) }

  function InOrder(es: seq<Encoded>): seq<Encoded> { Sorting.Sort(es, NameOf) }

  lemma KeyIs(ps: seq<PolicySpec>)
    ensures NamesKey(PolicyNames(ps)) == Join(Names(InOrder(EncodeAll(ps))), ',')
  {
    var es := EncodeAll(ps);
    Mapping.MapSort(es, NameOf, NameOf, Itself);
    assert Mapping.Map(es, NameOf) == PolicyNames(ps);
  }

  lemma OrderKeeps(es: seq<Encoded>, avoid: set<char>)
    requires AllPlain(es) && AllSpelled(es, avoid)
    ensures AllPlain(InOrder(es)) && AllSpelled(InOrder(es), avoid)
  {
    Sorting.SortCorrect(es, NameOf);
    forall e | e in InOrder(es) ensures e in es { assert e in multiset(InOrder(es)); }
  }

  lemma OrderDecides(ds: seq<Encoded>, es: seq<Encoded>)
    requires InOrder(ds) == InOrder(es)
    ensures multiset(ds) == multiset(es)
  {
    Sorting.SortCorrect(ds, NameOf);
    Sorting.SortCorrect(es, NameOf);
  }

  /** With the names, the fingerprint shows all that is printed of the policies. */
  lemma PrintsDecide(ps: seq<PolicySpec>, qs: seq<PolicySpec>, avoid: set<char>)
    requires TellsApart(avoid) && AllPlain(EncodeAll(ps)) && AllPlain(EncodeAll(qs))
    requires AllSpelled(EncodeAll(ps), avoid) && AllSpelled(EncodeAll(qs), avoid)
    requires NamesKey(PolicyNames(ps)) == NamesKey(PolicyNames(qs))
    requires Fingerprint(EncodeAll(ps)) == Fingerprint(EncodeAll(qs))
    ensures multiset(EncodeAll(ps)) == multiset(EncodeAll(qs))
  {
    KeyIs(ps);
    KeyIs(qs);
    OrderKeeps(EncodeAll(ps), avoid);
    OrderKeeps(EncodeAll(qs), avoid);
    SameLists(InOrder(EncodeAll(ps)), InOrder(EncodeAll(qs)), avoid);
    OrderDecides(EncodeAll(ps), EncodeAll(qs));
  }

  lemma NamesakeIs(ps: seq<PolicySpec>, i: nat, j: nat)
    requires DistinctPolicies(ps) && i < |ps| && j < |ps| && EncodeAll(ps)[i].name == EncodeAll(ps)[j].name
    ensures i == j
  {
    assert EncodeAll(ps)[i].name == ps[i].name && EncodeAll(ps)[j].name == ps[j].name;
  }

  lemma NamesDecide(ps: seq<PolicySpec>)
    requires DistinctPolicies(ps)
    ensures Sorting.KeysDecide(EncodeAll(ps), NameOf)
  {
    var ds := EncodeAll(ps);
    forall x, y | x in ds && y in ds && NameOf(x) == NameOf(y) ensures x == y {
      var i :| 0 <= i < |ds| && ds[i] == x;
      var j :| 0 <= j < |ds| && ds[j] == y;
      NamesakeIs(ps, i, j);
    }
  }

  lemma SamePoliciesPrintAlike(ps: seq<PolicySpec>, qs: seq<PolicySpec>)
    requires DistinctPolicies(ps) && multiset(EncodeAll(ps)) == multiset(EncodeAll(qs))
    ensures NamesKey(PolicyNames(ps)) == NamesKey(PolicyNames(qs)) && Fingerprint(EncodeAll(ps)) == Fingerprint(EncodeAll(qs))
  {
    NamesDecide(ps);
    Sorting.SortIgnoresOrder(EncodeAll(ps), EncodeAll(qs), NameOf);
    KeyIs(ps);
    KeyIs(qs);
  }

  /** A policy that can be put is of a known type. */
  lemma AcceptedIsPlain(ps: seq<PolicySpec>)
    requires forall p | p in ps :: PayloadOf(p).Some?
    ensures AllPlain(EncodeAll(ps))
  {
    var es := EncodeAll(ps);
    forall e | e in es ensures Plain(e) {
      var i :| 0 <= i < |es| && es[i] == e;
      assert ps[i] in ps;
    }
  }

  /** Identity and capacity bounds that a diff does not tell apart. */
  predicate SameSettings(a: Props, b: Props) {
    && EncodeProviderID(KeyOf(a)) == EncodeProviderID(KeyOf(b))
    && ValidateCapacity(a) == Some((IntProp(b, "min_capacity", 0), IntProp(b, "max_capacity", 1)))
  }

  /** Two configurations whose policies are of known types and whose strings avoid some
      characters, the first of which has been applied. */
  ghost predicate Comparable(c: Cloud, a: Props, b: Props, avoid: set<char>) {
    && Converge(c, a).1.Some?
    && AllPlain(Encodings(b)) && AllSpelled(Encodings(a), avoid) && AllSpelled(Encodings(b), avoid)
  }

  lemma ChangedAfter(c: Cloud, a: Props, b: Props)
    requires Converge(c, a).1.Some?
    ensures AllPlain(Encodings(a))
    ensures Changed(b, Converge(c, a).1.value) == {} <==>
            && SameSettings(a, b)
            && NamesKey(PolicyNames(Parsed(b))) == NamesKey(PolicyNames(Parsed(a)))
            && Fingerprint(Encodings(b)) == Fingerprint(Encodings(a))
  {
    ConvergeOutput(c, a);
    ConvergeEffect(c, a);
    AcceptedIsPlain(Parsed(a));
    ChangedIs(b, Converge(c, a).1.value);
  }

  /** If enough characters are avoided, a spec shows no change against the output of applying
      another exactly when identity, capacity and policies agree on all that is printed. */
  lemma DiffExact(c: Cloud, a: Props, b: Props, avoid: set<char>)
    requires TellsApart(avoid) && Comparable(c, a, b, avoid) && DistinctPolicies(Parsed(a))
    ensures Changed(b, Converge(c, a).1.value) == {} <==>
            SameSettings(a, b) && multiset(Encodings(a)) == multiset(Encodings(b))
  {
    ChangedAfter(c, a, b);
    if Changed(b, Converge(c, a).1.value) == {} {
      PrintsDecide(Parsed(a), Parsed(b), avoid);
    }
    if multiset(Encodings(a)) == multiset(Encodings(b)) {
      SamePoliciesPrintAlike(Parsed(a), Parsed(b));
    }
  }

  /* ----- nothing less is enough ----- */

  lemma PairsDiffer(d: Encoded, d': Encoded, e: Encoded, e': Encoded)
    requires d != e && d != e'
    ensures multiset([d, d']) != multiset([e, e'])
  {
    assert d in multiset([d, d']) && d !in multiset([e, e']);
  }

  lemma SortedPair(d: Encoded, e: Encoded)
    requires Sorting.Leq(d.name, e.name)
    ensures Sorting.Sort([d, e], NameOf) == [d, e]
  {
    assert [d, e][1..] == [e] && [e][1..] == [];
    assert Sorting.Sort([e], NameOf) == Sorting.Insert(e, [], NameOf) == [e];
    assert NameOf(d) == d.name && NameOf(e) == e.name;
    assert Sorting.Insert(d, [e], NameOf) == [d] + [e];
  }

  /** The policy of a prototype's type and numbers with a name and a string of its own. */
  function Make(proto: Encoded, name: string, mid: string): Encoded
    requires Plain(proto)
  {
    match proto
    case Tracking(_, h, _, i, o) => Tracking(name, h, mid, i, o)
    case Stepping(_, _, cooldown, adjustments) => Stepping(name, mid, cooldown, adjustments)
  }

  /** A string that carries the end of one policy and the beginning of the next. */
  function Carrier(proto: Encoded, name: string, mid: string): string
    requires Plain(proto)
  {
    mid + [':'] + First(proto) + [':'] + Second(proto) + ['|'] + name + [':'] + Head(proto) + mid
  }

  lemma PairText(d: Encoded, e: Encoded)
    requires Plain(d) && Plain(e)
    ensures TextOf([d, e]) == (d.name + [':'] + (Head(d) + Foot(d))) + ['|'] + (e.name + [':'] + (Head(e) + Foot(e)))
  {
    PrintIs(d);
    PrintIs(e);
    assert PrintAll([d, e]) == [Print(d), Print(e)];
    JoinTwo(Print(d), Print(e), '|');
  }

  lemma Shifted(n: string, m: string, h: string, s: string, u: string, v: string)
    ensures var x := s + [':'] + u + [':'] + v + ['|'] + m + [':'] + h + s;
            (n + [':'] + (h + (s + [':'] + u + [':'] + v))) + ['|'] + (m + [':'] + (h + (x + [':'] + u + [':'] + v)))
            == (n + [':'] + (h + (x + [':'] + u + [':'] + v))) + ['|'] + (m + [':'] + (h + (s + [':'] + u + [':'] + v)))
  {
    var end := s + [':'] + u + [':'] + v;
    var x := end + ['|'] + m + [':'] + h + s;
    assert x + [':'] + u + [':'] + v == end + ['|'] + m + [':'] + h + end;
    assert (n + [':'] + (h + end)) + ['|'] + (m + [':'] + (h + (end + ['|'] + m + [':'] + h + end)))
        == (n + [':'] + (h + (end + ['|'] + m + [':'] + h + end))) + ['|'] + (m + [':'] + (h + end));
  }

  lemma MadeText(proto: Encoded, n: string, a: string, m: string, b: string)
    requires Plain(proto) && Sorting.Leq(n, m)
    ensures var (h, u, v) := (Head(proto), First(proto), Second(proto));
            Fingerprint([Make(proto, n, a), Make(proto, m, b)]) ==
              (n + [':'] + (h + (a + [':'] + u + [':'] + v))) + ['|'] + (m + [':'] + (h + (b + [':'] + u + [':'] + v)))
  {
    var (d, e) := (Make(proto, n, a), Make(proto, m, b));
    SortedPair(d, e);
    PairText(d, e);
  }

  /** Two policies of one type and the same two with their strings exchanged, one of which
      carries a policy's end and beginning, print alike under the same names. */
  lemma SeparatorsFoolFingerprint(proto: Encoded, n: string, m: string, s: string)
    requires Plain(proto) && n != m && Sorting.Leq(n, m)
    ensures var x := Carrier(proto, m, s);
            var (one, other) := ([Make(proto, n, s), Make(proto, m, x)], [Make(proto, n, x), Make(proto, m, s)]);
            && Fingerprint(one) == Fingerprint(other) && Names(one) == Names(other)
            && multiset(one) != multiset(other)
  {
    var x := Carrier(proto, m, s);
    MadeText(proto, n, s, m, x);
    MadeText(proto, n, x, m, s);
    Shifted(n, m, Head(proto), s, First(proto), Second(proto));
    Exchanged(proto, n, m, s, x);
  }

  lemma Exchanged(proto: Encoded, n: string, m: string, s: string, x: string)
    requires Plain(proto) && n != m && s != x
    ensures var (one, other) := ([Make(proto, n, s), Make(proto, m, x)], [Make(proto, n, x), Make(proto, m, s)]);
            Names(one) == Names(other) && multiset(one) != multiset(other)
  {
    var (one, other) := ([Make(proto, n, s), Make(proto, m, x)], [Make(proto, n, x), Make(proto, m, s)]);
    PairsDiffer(one[0], one[1], other[0], other[1]);
    assert Names(one) == [n, m] && Names(other) == [n, m];
  }
}
