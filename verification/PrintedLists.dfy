/**
When a printed list, together with its joined names, shows which policies were printed.
Strings that avoid ':', or '|', or every digit, leave no room for a field to be mistaken;
strings that avoid 'S' and one of 'T' and '.' leave the heads of the policies standing out.
*/
module PrintedLists {
  import opened Policies
  import opened Printing
  import opened Text
  import Mapping

  predicate Avoids(s: string, avoid: set<char>) { forall i | 0 <= i < |s| :: s[i] !in avoid }

  predicate Spelled(e: Encoded, avoid: set<char>) {
    && Avoids(e.name, avoid)
    && match e
       case Tracking(_, _, metric, _, _) => Avoids(metric, avoid)
       case Stepping(_, adjustmentType, _, _) => Avoids(adjustmentType, avoid)
       case Unknown(_, kind) => Avoids(kind, avoid)
  }

  predicate AllSpelled(es: seq<Encoded>, avoid: set<char>) { forall e | e in es :: Spelled(e, avoid) }

  const DIGITS: set<char> := {'0', '1', '2', '3', '4', '5', '6', '7', '8', '9'}

  predicate NoRoom(avoid: set<char>) { ':' in avoid || '|' in avoid || DIGITS <= avoid }

  predicate HeadsStandOut(avoid: set<char>) { 'S' in avoid && ('T' in avoid || '.' in avoid) }

  /** Enough is avoided. */
  predicate TellsApart(avoid: set<char>) { NoRoom(avoid) || HeadsStandOut(avoid) }

  /* ----- no room for a field to be mistaken ----- */

  predicate StartsRest(r: string) { r == "" || r[0] == '|' }

  predicate Field(s: string) { Numeric(s) && Free(s, ':') && Free(s, '|') }

  /** A shorter string of a policy would put two of its fields and the bar inside the longer. */
  lemma MidNotShorter(m: string, u: string, v: string, r: string, m': string, u': string, tail: string, avoid: set<char>)
    requires NoRoom(avoid) && Avoids(m', avoid)
    requires Field(u) && Field(v) && StartsRest(r) && Field(u') && u != "" && u' != "" && IsDigit(u[|u| - 1])
    requires m + [':'] + u + [':'] + v + r == m' + [':'] + u' + [':'] + tail
    ensures |m| >= |m'|
  {
    var t := m + [':'] + u + [':'] + v + r;
    var (a, b, c) := (|m|, |m| + 1 + |u|, |m| + 2 + |u| + |v|);
    assert t[a] == ':' && t[b] == ':';
    assert forall i | a < i < b :: t[i] == u[i - a - 1];
    assert forall i | b < i < c :: t[i] == v[i - b - 1];
    assert c < |t| ==> t[c] == r[0];
    assert t == m' + [':'] + u' + [':'] + tail;
    assert t[|m'|] == ':' && t[|m'| + 1 + |u'|] == ':';
    assert forall i | 0 <= i < |m'| :: t[i] == m'[i] && m'[i] !in avoid;
    assert forall i | |m'| < i < |m'| + 1 + |u'| :: t[i] == u'[i - |m'| - 1];
    assert t[b - 1] == u[|u| - 1] && t[b - 1] in DIGITS;
  }

  /** So the strings are the same, and the fields after them. */
  lemma FeetShow(d: Encoded, e: Encoded, r: string, r': string, avoid: set<char>)
    requires Plain(d) && Plain(e) && NoRoom(avoid) && Spelled(d, avoid) && Spelled(e, avoid)
    requires StartsRest(r) && StartsRest(r') && Foot(d) + r == Foot(e) + r'
    ensures Foot(d) == Foot(e) && r == r'
  {
    FieldsNumeric(d);
    FieldsNumeric(e);
    FirstShowsDigit(d);
    FirstShowsDigit(e);
    MidsShow(Mid(d), First(d), Second(d), r, Mid(e), First(e), Second(e), r', avoid);
  }

  predicate Sized(u: string) { Field(u) && u != "" && IsDigit(u[|u| - 1]) }

  lemma MidsShow(m: string, u: string, v: string, r: string, m': string, u': string, v': string, r': string, avoid: set<char>)
    requires NoRoom(avoid) && Avoids(m, avoid) && Avoids(m', avoid)
    requires Sized(u) && Field(v) && StartsRest(r) && Sized(u') && Field(v') && StartsRest(r')
    requires m + [':'] + u + [':'] + v + r == m' + [':'] + u' + [':'] + v' + r'
    ensures m == m' && u == u' && v == v' && r == r'
  {
    var t := m + [':'] + u + [':'] + v + r;
    assert t == m + [':'] + u + [':'] + (v + r) && t == m' + [':'] + u' + [':'] + (v' + r');
    MidNotShorter(m, u, v, r, m', u', v' + r', avoid);
    MidNotShorter(m', u', v', r', m, u, v + r, avoid);
    assert m == t[..|m|] && m' == t[..|m'|];
    assert t[|m| + 1..] == u + [':'] + (v + r) && t[|m| + 1..] == u' + [':'] + (v' + r');
    FirstPart(u, u', v + r, v' + r', ':');
    FieldThenRest(v, r, v', r');
  }

  lemma FieldThenRest(v: string, r: string, v': string, r': string)
    requires Field(v) && Field(v') && StartsRest(r) && StartsRest(r') && v + r == v' + r'
    ensures v == v' && r == r'
  {
    var s := v + r;
    assert r != "" ==> s[|v|] == '|';
    assert r' != "" ==> s[|v'|] == '|';
    assert forall i | 0 <= i < |v| :: s[i] == v[i];
    assert forall i | 0 <= i < |v'| :: s[i] == v'[i];
    assert |v| == |v'|;
    assert v == s[..|v|] && v' == s[..|v'|] && r == s[|v|..] && r' == s[|v'|..];
  }

  lemma RestShows(ds: seq<Encoded>, es: seq<Encoded>)
    requires Rest(ds) == Rest(es) && (ds == [] <==> es == [])
    ensures TextOf(ds) == TextOf(es)
  {
    if ds != [] {
      assert Rest(ds)[1..] == TextOf(ds) && Rest(es)[1..] == TextOf(es);
    } else {
      assert PrintAll(ds) == PrintAll(es);
    }
  }

  lemma FirstShows(ds: seq<Encoded>, es: seq<Encoded>, avoid: set<char>)
    requires AllPlain(ds) && AllPlain(es) && ds != [] && es != []
    requires NoRoom(avoid) && AllSpelled(ds, avoid) && AllSpelled(es, avoid)
    requires Join(Names(ds), ',') == Join(Names(es), ',') && TextOf(ds) == TextOf(es)
    ensures ds[0] == es[0]
    ensures Join(Names(ds[1..]), ',') == Join(Names(es[1..]), ',') && TextOf(ds[1..]) == TextOf(es[1..])
  {
    var (d, e) := (ds[0], es[0]);
    FirstNameShows(ds, es);
    HeadsEqual(d, e, Foot(d) + Rest(ds[1..]), Foot(e) + Rest(es[1..]));
    FeetShow(d, e, Rest(ds[1..]), Rest(es[1..]), avoid);
    FeetDecide(d, e);
    PartsDecide(d, e);
    RestShows(ds[1..], es[1..]);
  }

  lemma TailKeeps(es: seq<Encoded>, avoid: set<char>)
    requires es != [] && AllPlain(es) && AllSpelled(es, avoid)
    ensures AllPlain(es[1..]) && AllSpelled(es[1..], avoid) && es == [es[0]] + es[1..]
  {
  }

  lemma {:induction false} SameFromFront(ds: seq<Encoded>, es: seq<Encoded>, avoid: set<char>)
    requires AllPlain(ds) && AllPlain(es)
    requires NoRoom(avoid) && AllSpelled(ds, avoid) && AllSpelled(es, avoid)
    requires Join(Names(ds), ',') == Join(Names(es), ',') && TextOf(ds) == TextOf(es)
    ensures ds == es
  {
    NoText(ds);
    NoText(es);
    if ds != [] {
      FirstShows(ds, es, avoid);
      TailKeeps(ds, avoid);
      TailKeeps(es, avoid);
      SameFromFront(ds[1..], es[1..], avoid);
    }
  }

  /* ----- heads that stand out ----- */

  /** The characters that then show only in heads: 'S' in a step policy's, the other in a
      tracking policy's. */
  function Other(avoid: set<char>): char { if '.' in avoid then '.' else 'T' }

  predicate Quiet(s: string, z: char) { forall i | 0 <= i < |s| :: s[i] != 'S' && s[i] != z }

  lemma NumericIsQuiet(s: string, z: char)
    requires Numeric(s) && (z == '.' || z == 'T')
    ensures Quiet(s, z)
  {
  }

  /** The place of the first loud character of a head. */
  function LoudAt(e: Encoded, z: char): nat
    requires Plain(e)
  {
    if e.Tracking? && z == '.' then 3 + |WholeText(e.hundredths)| else 0
  }

  lemma HeadIsLoud(e: Encoded, z: char)
    requires Plain(e) && (z == '.' || z == 'T')
    ensures LoudAt(e, z) < |Head(e)| && Head(e)[LoudAt(e, z)] == (if e.Stepping? then 'S' else z)
    ensures forall i | 0 <= i < LoudAt(e, z) :: Head(e)[i] != 'S' && Head(e)[i] != z
  {
    if e.Tracking? && z == '.' {
      var whole := WholeText(e.hundredths);
      assert Head(e) == "TT:" + (whole + (['.'] + CentsText(e.hundredths) + ":"));
      assert forall i | 3 <= i < 3 + |whole| :: Head(e)[i] == whole[i - 3];
    }
  }

  /** After quiet text the first head shows, and with it what came before. */
  lemma QuietThenHead(b: string, b': string, d: Encoded, e: Encoded, x: string, y: string, z: char)
    requires Plain(d) && Plain(e) && (z == '.' || z == 'T') && Quiet(b, z) && Quiet(b', z)
    requires b + [':'] + (Head(d) + x) == b' + [':'] + (Head(e) + y)
    ensures b == b' && Head(d) == Head(e) && x == y && (d.Tracking? <==> e.Tracking?)
    ensures d.Tracking? ==> d.hundredths == e.hundredths
  {
    LoudPlace(b, d, x, z);
    LoudPlace(b', e, y, z);
    var s := b + [':'] + (Head(d) + x);
    var (p, q) := (|b| + 1 + LoudAt(d, z), |b'| + 1 + LoudAt(e, z));
    assert p == q;
    if d.Tracking? && z == '.' { WholesAlign(b, b', d, e, x, y); }
    assert |b| == |b'|;
    assert b == s[..|b|] && b' == s[..|b'|];
    assert s[|b| + 1..] == Head(d) + x && s[|b'| + 1..] == Head(e) + y;
    HeadsEqual(d, e, x, y);
  }

  lemma LoudPlace(b: string, e: Encoded, x: string, z: char)
    requires Plain(e) && (z == '.' || z == 'T') && Quiet(b, z)
    ensures var s := b + [':'] + (Head(e) + x); var p := |b| + 1 + LoudAt(e, z);
            && p < |s| && s[p] == (if e.Stepping? then 'S' else z)
            && forall i | 0 <= i < p :: s[i] != 'S' && s[i] != z
  {
    HeadIsLoud(e, z);
    FirstLoud(b, Head(e), x, LoudAt(e, z), z);
  }

  /** After quiet text the first loud character is the head's. */
  lemma FirstLoud(b: string, h: string, x: string, k: nat, z: char)
    requires Quiet(b, z) && z != ':' && k < |h| && forall i | 0 <= i < k :: h[i] != 'S' && h[i] != z
    ensures var s := b + [':'] + (h + x); var p := |b| + 1 + k;
            p < |s| && s[p] == h[k] && forall i | 0 <= i < p :: s[i] != 'S' && s[i] != z
  {
    var s := b + [':'] + (h + x);
    assert forall i | 0 <= i < |h| :: s[|b| + 1 + i] == h[i];
    assert forall i | 0 <= i < |b| :: s[i] == b[i];
    assert s[|b|] == ':';
    forall i | |b| < i < |b| + 1 + k ensures s[i] != 'S' && s[i] != z { assert s[i] == h[i - |b| - 1]; }
  }

  /** Both whole numbers end at the same point and start after a ':', so they start together. */
  lemma EndTogether(b: string, g: string, r: string, b': string, h: string, r': string)
    requires Free(g, ':') && Free(h, ':') && |b| + |g| == |b'| + |h|
    requires b + [':'] + g + r == b' + [':'] + h + r'
    ensures |b| == |b'|
  {
    var s := b + [':'] + g + r;
    assert s[|b|] == ':' && s[|b'|] == ':';
    assert forall i | 0 <= i < |g| :: s[|b| + 1 + i] == g[i];
    assert forall i | 0 <= i < |h| :: s[|b'| + 1 + i] == h[i];
  }

  lemma TrackingText(b: string, e: Encoded, x: string)
    requires e.Tracking?
    ensures b + [':'] + (Head(e) + x) ==
              (b + ":TT") + [':'] + WholeText(e.hundredths) + (['.'] + CentsText(e.hundredths) + [':'] + x)
  {
    var (g, r) := (WholeText(e.hundredths), ['.'] + CentsText(e.hundredths));
    assert Head(e) == ("TT" + [':']) + g + r + [':'];
    assert b + [':'] + (("TT" + [':']) + g + r + [':'] + x) == (b + ":TT") + [':'] + g + (r + [':'] + x);
  }

  lemma WholesAlign(b: string, b': string, d: Encoded, e: Encoded, x: string, y: string)
    requires d.Tracking? && e.Tracking?
    requires b + [':'] + (Head(d) + x) == b' + [':'] + (Head(e) + y)
    requires |b| + |WholeText(d.hundredths)| == |b'| + |WholeText(e.hundredths)|
    ensures |b| == |b'|
  {
    TrackingText(b, d, x);
    TrackingText(b', e, y);
    EndTogether(b + ":TT", WholeText(d.hundredths), ['.'] + CentsText(d.hundredths) + [':'] + x,
                b' + ":TT", WholeText(e.hundredths), ['.'] + CentsText(e.hundredths) + [':'] + y);
  }

  predicate SameHead(d: Encoded, e: Encoded) {
    Plain(d) && Plain(e) && (d.Tracking? <==> e.Tracking?) && (d.Tracking? ==> d.hundredths == e.hundredths)
  }

  ghost predicate SameHeads(ds: seq<Encoded>, es: seq<Encoded>) {
    |ds| == |es| && forall i: nat | i < |ds| :: SameHead(ds[i], es[i])
  }

  function FootOf(e: Encoded): string { if Plain(e) then Foot(e) else "" }

  function Feet(es: seq<Encoded>): seq<string> { Mapping.Map(es, FootOf) }

  /** From the end of one head to the beginning of the next. */
  function Link(names: seq<string>, feet: seq<string>, i: nat): string
    requires i < |feet|
  {
    if i + 1 < |names| then feet[i] + ['|'] + names[i + 1] else feet[i]
  }

  ghost predicate Linked(ns: seq<string>, fs: seq<string>, ns': seq<string>, fs': seq<string>) {
    && |ns| == |fs| == |ns'| == |fs'|
    && forall i: nat | i < |fs| :: Link(ns, fs, i) == Link(ns', fs', i)
  }

  lemma FootIsQuiet(e: Encoded, avoid: set<char>)
    requires Plain(e) && Spelled(e, avoid) && HeadsStandOut(avoid)
    ensures Quiet(Foot(e), Other(avoid)) && Quiet(e.name, Other(avoid))
  {
    var z := Other(avoid);
    FieldsNumeric(e);
    NumericIsQuiet(First(e), z);
    NumericIsQuiet(Second(e), z);
  }

  /** The text from the first head on. */
  function FromHead(es: seq<Encoded>): string
    requires es != [] && Plain(es[0])
  {
    Head(es[0]) + (Foot(es[0]) + Rest(es[1..]))
  }

  lemma Regroup(foot: string, name: string, more: string)
    ensures foot + (['|'] + (name + [':'] + more)) == (foot + ['|'] + name) + [':'] + more
  {
  }

  lemma RestIs(es: seq<Encoded>, foot: string)
    requires es != [] && Plain(es[0])
    ensures foot + Rest(es) == (foot + ['|'] + es[0].name) + [':'] + FromHead(es)
  {
    TextIs(es);
    Regroup(foot, es[0].name, FromHead(es));
  }

  lemma RestIsLoud(es: seq<Encoded>, foot: string, z: char) returns (p: nat)
    requires (z == '.' || z == 'T') && es != [] && Plain(es[0]) && Quiet(foot, z) && Quiet(es[0].name, z)
    ensures p < |foot + Rest(es)| && ((foot + Rest(es))[p] == 'S' || (foot + Rest(es))[p] == z)
  {
    var b := foot + ['|'] + es[0].name;
    assert Quiet(b, z);
    RestIs(es, foot);
    LoudPlace(b, es[0], Foot(es[0]) + Rest(es[1..]), z);
    p := |b| + 1 + LoudAt(es[0], z);
  }

  /** Quiet text has no head in it. */
  lemma NoHeadIn(foot: string, es: seq<Encoded>, foot': string, z: char)
    requires (z == '.' || z == 'T') && Quiet(foot, z) && Quiet(foot', z) && AllPlain(es)
    requires forall e | e in es :: Quiet(e.name, z)
    requires foot == foot' + Rest(es)
    ensures es == []
  {
    if es != [] {
      var p := RestIsLoud(es, foot', z);
    }
  }

  lemma LinkCons(n: string, f: string, ns: seq<string>, fs: seq<string>, i: nat)
    requires |ns| == |fs| && i < |fs|
    ensures Link([n] + ns, [f] + fs, i + 1) == Link(ns, fs, i)
  {
  }

  lemma LinkedCons(n: string, f: string, ns: seq<string>, fs: seq<string>,
                   n': string, f': string, ns': seq<string>, fs': seq<string>)
    requires Linked(ns, fs, ns', fs')
    requires if ns == [] then f == f' else f + ['|'] + ns[0] == f' + ['|'] + ns'[0]
    ensures Linked([n] + ns, [f] + fs, [n'] + ns', [f'] + fs')
  {
    var (all, all') := ([f] + fs, [f'] + fs');
    assert Link([n] + ns, all, 0) == Link([n'] + ns', all', 0);
    forall i: nat | i < |all| ensures Link([n] + ns, all, i) == Link([n'] + ns', all', i) {
      if i > 0 {
        LinkCons(n, f, ns, fs, i - 1);
        LinkCons(n', f', ns', fs', i - 1);
        assert Link(ns, fs, i - 1) == Link(ns', fs', i - 1);
      }
    }
  }

  lemma ListsCons(es: seq<Encoded>)
    requires es != [] && Plain(es[0])
    ensures Names(es) == [es[0].name] + Names(es[1..]) && Feet(es) == [Foot(es[0])] + Feet(es[1..])
  {
    Mapping.MapCons(es, NameOf);
    Mapping.MapCons(es, FootOf);
  }

  lemma HeadsCons(ds: seq<Encoded>, es: seq<Encoded>)
    requires ds != [] && es != [] && SameHead(ds[0], es[0]) && SameHeads(ds[1..], es[1..])
    ensures SameHeads(ds, es)
  {
    forall i: nat | i < |ds| ensures SameHead(ds[i], es[i]) {
      if i > 0 { assert SameHead(ds[1..][i - 1], es[1..][i - 1]); }
    }
  }

  ghost predicate Aligned(ds: seq<Encoded>, es: seq<Encoded>) {
    SameHeads(ds, es) && Linked(Names(ds), Feet(ds), Names(es), Feet(es))
  }

  lemma AlignedCons(ds: seq<Encoded>, es: seq<Encoded>)
    requires ds != [] && es != [] && SameHead(ds[0], es[0]) && Aligned(ds[1..], es[1..])
    requires if ds[1..] == [] then Foot(ds[0]) == Foot(es[0])
             else Foot(ds[0]) + ['|'] + ds[1].name == Foot(es[0]) + ['|'] + es[1].name
    ensures Aligned(ds, es)
  {
    HeadsCons(ds, es);
    ListsCons(ds);
    ListsCons(es);
    LinkedCons(ds[0].name, Foot(ds[0]), Names(ds[1..]), Feet(ds[1..]), es[0].name, Foot(es[0]), Names(es[1..]), Feet(es[1..]));
  }

  /** The first head shows; what follows it is quiet up to the next. */
  lemma FirstAligns(b: string, ds: seq<Encoded>, b': string, es: seq<Encoded>, avoid: set<char>)
    requires ds != [] && es != [] && AllPlain(ds) && AllPlain(es) && HeadsStandOut(avoid)
    requires AllSpelled(ds, avoid) && AllSpelled(es, avoid) && Quiet(b, Other(avoid)) && Quiet(b', Other(avoid))
    requires b + [':'] + FromHead(ds) == b' + [':'] + FromHead(es)
    ensures b == b' && SameHead(ds[0], es[0])
    ensures Foot(ds[0]) + Rest(ds[1..]) == Foot(es[0]) + Rest(es[1..])
    ensures ds[1..] == [] <==> es[1..] == []
  {
    var z := Other(avoid);
    var (x, y) := (Foot(ds[0]) + Rest(ds[1..]), Foot(es[0]) + Rest(es[1..]));
    QuietThenHead(b, b', ds[0], es[0], x, y, z);
    FootIsQuiet(ds[0], avoid);
    FootIsQuiet(es[0], avoid);
    TailKeeps(ds, avoid);
    TailKeeps(es, avoid);
    NamesQuiet(ds[1..], avoid);
    NamesQuiet(es[1..], avoid);
    if ds[1..] == [] { NoHeadIn(x, es[1..], Foot(es[0]), z); }
    if es[1..] == [] { NoHeadIn(y, ds[1..], Foot(ds[0]), z); }
  }

  lemma NamesQuiet(es: seq<Encoded>, avoid: set<char>)
    requires AllPlain(es) && AllSpelled(es, avoid) && HeadsStandOut(avoid)
    ensures forall e | e in es :: Quiet(e.name, Other(avoid))
  {
    forall e | e in es ensures Quiet(e.name, Other(avoid)) { FootIsQuiet(e, avoid); }
  }

  /** So all heads line up, and what stands between them is the same. */
  lemma {:induction false} Align(b: string, ds: seq<Encoded>, b': string, es: seq<Encoded>, avoid: set<char>)
    requires ds != [] && es != [] && AllPlain(ds) && AllPlain(es) && HeadsStandOut(avoid)
    requires AllSpelled(ds, avoid) && AllSpelled(es, avoid) && Quiet(b, Other(avoid)) && Quiet(b', Other(avoid))
    requires b + [':'] + FromHead(ds) == b' + [':'] + FromHead(es)
    ensures b == b' && Aligned(ds, es)
    decreases |ds|
  {
    FirstAligns(b, ds, b', es, avoid);
    var (ds', es') := (ds[1..], es[1..]);
    if ds' == [] {
      assert Foot(ds[0]) + "" == Foot(ds[0]) && Foot(es[0]) + "" == Foot(es[0]);
    } else {
      RestAligns(ds[0], ds', es[0], es', avoid);
      TailKeeps(ds, avoid);
      TailKeeps(es, avoid);
      Align(Foot(ds[0]) + ['|'] + ds'[0].name, ds', Foot(es[0]) + ['|'] + es'[0].name, es', avoid);
    }
    AlignedCons(ds, es);
  }

  lemma NextIsQuiet(d: Encoded, next: Encoded, avoid: set<char>)
    requires Plain(d) && Spelled(d, avoid) && Plain(next) && Spelled(next, avoid) && HeadsStandOut(avoid)
    ensures Quiet(Foot(d) + ['|'] + next.name, Other(avoid))
  {
    FootIsQuiet(d, avoid);
    FootIsQuiet(next, avoid);
    QuietAround(Foot(d), next.name, Other(avoid));
  }

  lemma QuietAround(s: string, t: string, z: char)
    requires Quiet(s, z) && Quiet(t, z) && z != '|'
    ensures Quiet(s + ['|'] + t, z)
  {
  }

  lemma RestAligns(d: Encoded, ds: seq<Encoded>, e: Encoded, es: seq<Encoded>, avoid: set<char>)
    requires Plain(d) && Plain(e) && Spelled(d, avoid) && Spelled(e, avoid) && HeadsStandOut(avoid)
    requires ds != [] && es != [] && Plain(ds[0]) && Plain(es[0]) && Spelled(ds[0], avoid) && Spelled(es[0], avoid)
    requires Foot(d) + Rest(ds) == Foot(e) + Rest(es)
    ensures var (b, b') := (Foot(d) + ['|'] + ds[0].name, Foot(e) + ['|'] + es[0].name);
            Quiet(b, Other(avoid)) && Quiet(b', Other(avoid)) && b + [':'] + FromHead(ds) == b' + [':'] + FromHead(es)
  {
    RestIs(ds, Foot(d));
    RestIs(es, Foot(e));
    NextIsQuiet(d, ds[0], avoid);
    NextIsQuiet(e, es[0], avoid);
  }

  lemma NameNotLonger(j: string, n: string, j': string, n': string, f: string, f': string)
    requires j + [','] + n == j' + [','] + n' && f + ['|'] + n == f' + ['|'] + n'
    ensures |n| <= |n'|
  {
    var (s, t, k) := (j + [','] + n, f + ['|'] + n, |n| - 1 - |n'|);
    assert s[|j'|] == ',' && t[|f'|] == '|';
    assert forall i | 0 <= i < |n| :: s[|j| + 1 + i] == n[i] && t[|f| + 1 + i] == n[i];
    assert |j| + 1 + k == |j'| && |f| + 1 + k == |f'|;
  }

  /** In joined names a ',' precedes the last name, between heads a '|', so both show it. */
  lemma LastNames(j: string, n: string, j': string, n': string, f: string, f': string)
    requires j + [','] + n == j' + [','] + n' && f + ['|'] + n == f' + ['|'] + n'
    ensures n == n' && j == j' && f == f'
  {
    NameNotLonger(j, n, j', n', f, f');
    NameNotLonger(j', n', j, n, f', f);
    var (s, t) := (j + [','] + n, f + ['|'] + n);
    assert n == s[|j| + 1..] && n' == s[|j'| + 1..] && j == s[..|j|] && j' == s[..|j'|];
    assert f == t[..|f|] && f' == t[..|f'|];
  }

  lemma LinkInit(ns: seq<string>, fs: seq<string>, k: nat, i: nat)
    requires |ns| == |fs| && i < k <= |fs|
    ensures Link(ns[..k], fs[..k], i) == if i + 1 < k then Link(ns, fs, i) else fs[i]
  {
  }

  lemma LinkedInit(ns: seq<string>, fs: seq<string>, ns': seq<string>, fs': seq<string>, k: nat)
    requires Linked(ns, fs, ns', fs') && |ns| == k + 1 && k > 0 && fs[k - 1] == fs'[k - 1]
    ensures Linked(ns[..k], fs[..k], ns'[..k], fs'[..k])
  {
    forall i: nat | i < k ensures Link(ns[..k], fs[..k], i) == Link(ns'[..k], fs'[..k], i) {
      LinkInit(ns, fs, k, i);
      LinkInit(ns', fs', k, i);
      assert Link(ns, fs, i) == Link(ns', fs', i);
    }
  }

  lemma SplitLast(ns: seq<string>, k: nat)
    requires |ns| == k + 1
    ensures ns == ns[..k] + [ns[k]]
  {
  }

  lemma JoinBefore(ns: seq<string>, k: nat)
    requires |ns| == k + 1 && k > 0
    ensures Join(ns, ',') == Join(ns[..k], ',') + [','] + ns[k]
  {
    SplitLast(ns, k);
    JoinLast(ns[..k], ns[k], ',');
  }

  lemma LinksShow(ns: seq<string>, fs: seq<string>, ns': seq<string>, fs': seq<string>, k: nat)
    requires Linked(ns, fs, ns', fs') && |ns| == k + 1 && k > 0
    ensures fs[k] == fs'[k] && fs[k - 1] + ['|'] + ns[k] == fs'[k - 1] + ['|'] + ns'[k]
  {
    assert Link(ns, fs, k) == Link(ns', fs', k) && Link(ns, fs, k - 1) == Link(ns', fs', k - 1);
  }

  lemma LastShow(ns: seq<string>, fs: seq<string>, ns': seq<string>, fs': seq<string>, k: nat)
    requires Linked(ns, fs, ns', fs') && Join(ns, ',') == Join(ns', ',') && |ns| == k + 1 && k > 0
    ensures ns[k] == ns'[k] && fs[k] == fs'[k] && fs[k - 1] == fs'[k - 1] && Join(ns[..k], ',') == Join(ns'[..k], ',')
  {
    LinksShow(ns, fs, ns', fs', k);
    JoinBefore(ns, k);
    JoinBefore(ns', k);
    LastNames(Join(ns[..k], ','), ns[k], Join(ns'[..k], ','), ns'[k], fs[k - 1], fs'[k - 1]);
  }

  lemma {:induction false} SameFromBack(ns: seq<string>, fs: seq<string>, ns': seq<string>, fs': seq<string>)
    requires ns != [] && Linked(ns, fs, ns', fs') && ns[0] == ns'[0] && Join(ns, ',') == Join(ns', ',')
    ensures ns == ns' && fs == fs'
    decreases |ns|
  {
    var k := |ns| - 1;
    if k > 0 {
      LastShow(ns, fs, ns', fs', k);
      LinkedInit(ns, fs, ns', fs', k);
      SameFromBack(ns[..k], fs[..k], ns'[..k], fs'[..k]);
      assert ns == ns[..k] + [ns[k]] && ns' == ns'[..k] + [ns'[k]];
      assert fs == fs[..k] + [fs[k]] && fs' == fs'[..k] + [fs'[k]];
    } else {
      assert Link(ns, fs, 0) == Link(ns', fs', 0);
    }
  }

  lemma AlignedDecide(ds: seq<Encoded>, es: seq<Encoded>)
    requires SameHeads(ds, es) && Names(ds) == Names(es) && Feet(ds) == Feet(es)
    ensures ds == es
  {
    forall i: nat | i < |ds| ensures ds[i] == es[i] {
      assert SameHead(ds[i], es[i]);
      assert Names(ds)[i] == Names(es)[i] && Feet(ds)[i] == Feet(es)[i];
      FeetDecide(ds[i], es[i]);
      PartsDecide(ds[i], es[i]);
    }
  }

  lemma SameByHeads(ds: seq<Encoded>, es: seq<Encoded>, avoid: set<char>)
    requires AllPlain(ds) && AllPlain(es)
    requires HeadsStandOut(avoid) && AllSpelled(ds, avoid) && AllSpelled(es, avoid)
    requires Join(Names(ds), ',') == Join(Names(es), ',') && TextOf(ds) == TextOf(es)
    ensures ds == es
  {
    NoText(ds);
    NoText(es);
    if ds != [] {
      TextIs(ds);
      TextIs(es);
      FootIsQuiet(ds[0], avoid);
      FootIsQuiet(es[0], avoid);
      Align(ds[0].name, ds, es[0].name, es, avoid);
      SameFromBack(Names(ds), Feet(ds), Names(es), Feet(es));
      AlignedDecide(ds, es);
    }
  }

  /** Lists of policies of known types that print alike and whose names join alike are the
      same list, if their strings avoid enough. */
  lemma SameLists(ds: seq<Encoded>, es: seq<Encoded>, avoid: set<char>)
    requires AllPlain(ds) && AllPlain(es)
    requires TellsApart(avoid) && AllSpelled(ds, avoid) && AllSpelled(es, avoid)
    requires Join(Names(ds), ',') == Join(Names(es), ',') && TextOf(ds) == TextOf(es)
    ensures ds == es
  {
    if NoRoom(avoid) { SameFromFront(ds, es, avoid); } else { SameByHeads(ds, es, avoid); }
  }
}
