/** Exactly when the fingerprint, without the names, tells policies of any type apart. */
module LoneFingerprints {
  import opened Policies
  import opened Printing
  import opened PrintedLists
  import opened Fingerprints
  import opened FooledDiffs
  import opened Text
  import Mapping
  import Sorting

  ghost predicate AloneTells(avoid: set<char>) {
    forall ds, es | AllSpelled(ds, avoid) && AllSpelled(es, avoid) && Fingerprint(ds) == Fingerprint(es) ::
      multiset(ds) == multiset(es)
  }

  /** No name can hold what follows a name. */
  predicate NamesStandOut(avoid: set<char>) {
    '?' in avoid && 'S' in avoid && ('T' in avoid || '.' in avoid || DIGITS <= avoid)
  }

  /** Enough is avoided. */
  predicate TellsAlone(avoid: set<char>) { '|' in avoid && (':' in avoid || NamesStandOut(avoid)) }

  /* ----- enough is enough ----- */

  /** What follows the name and its ':'. */
  function Tail(e: Encoded): string {
    match e
    case Unknown(_, kind) => "?:" + kind
    case Tracking(_, _, _, _, _) => Head(e) + Foot(e)
    case Stepping(_, _, _, _) => Head(e) + Foot(e)
  }

  lemma PrintsTail(e: Encoded)
    ensures Print(e) == e.name + [':'] + Tail(e)
  {
    match e
    case Unknown(name, kind) =>
      PrintUnknown(name, kind);
      assert name + [':'] + ("?:" + kind) == name + ":?:" + kind;
    case _ => PrintIs(e);
  }

  /** The first character of what follows the name shows the type. */
  function Mark(e: Encoded): char {
    match e case Tracking(_, _, _, _, _) => 'T' case Stepping(_, _, _, _) => 'S' case Unknown(_, _) => '?'
  }

  lemma TailMarks(e: Encoded)
    ensures |Tail(e)| >= 2 && Tail(e)[0] == Mark(e)
  {
  }

  /** A longer name holds the mark. */
  lemma MarkInside(n: string, x: string, m: string, y: string)
    requires x != "" && x[0] != ':' && n + [':'] + x == m + [':'] + y && |n| < |m|
    ensures |m| >= |n| + 2 && m[|n| + 1] == x[0]
  {
    var s := n + [':'] + x;
    assert s[|n| + 1] == x[0];
    assert s == m + [':'] + y;
    assert s[|m|] == ':';
  }

  /** A longer name that holds a tracking policy's mark holds its whole target. */
  lemma TargetInside(n: string, g: string, x: string, m: string, y: string)
    requires Free(g, ':') && g != "" && g[0] != 'T' && g[0] != 'S' && g[0] != '?'
    requires y != "" && (y[0] == 'T' || y[0] == 'S' || y[0] == '?')
    requires n + [':'] + ("TT:" + g + [':'] + x) == m + [':'] + y && |n| < |m|
    ensures |m| >= |n| + 4 + |g| && m[|n| + 4..|n| + 4 + |g|] == g
  {
    var s := n + [':'] + ("TT:" + g + [':'] + x);
    assert s[|n| + 1] == 'T' && s[|n| + 2] == 'T';
    assert forall i | 0 <= i < |g| :: s[|n| + 4 + i] == g[i];
    assert s == m + [':'] + y;
    assert s[|m|] == ':' && s[|m| + 1] == y[0];
  }

  lemma TargetShows(h: int)
    ensures var g := HundredthsText(h);
            && Free(g, ':') && |g| >= 2 && g[|WholeText(h)|] == '.' && g[|g| - 1] in DIGITS
            && g[0] != 'T' && g[0] != 'S' && g[0] != '?'
  {
    TargetFree(h);
    var cents := CentsText(h);
    assert HundredthsText(h)[|HundredthsText(h)| - 1] == cents[|cents| - 1];
  }

  lemma NameNotLonger(d: Encoded, e: Encoded, avoid: set<char>)
    requires NamesStandOut(avoid) && Avoids(e.name, avoid) && Print(d) == Print(e)
    ensures |e.name| <= |d.name|
  {
    PrintsTail(d);
    PrintsTail(e);
    TailMarks(d);
    TailMarks(e);
    if |d.name| < |e.name| {
      MarkInside(d.name, Tail(d), e.name, Tail(e));
      if d.Tracking? && 'T' !in avoid {
        TrackedNameNotLonger(d, e, avoid);
      }
    }
  }

  lemma TrackedNameNotLonger(d: Encoded, e: Encoded, avoid: set<char>)
    requires d.Tracking? && ('.' in avoid || DIGITS <= avoid) && Avoids(e.name, avoid)
    requires d.name + [':'] + Tail(d) == e.name + [':'] + Tail(e)
    ensures |e.name| <= |d.name|
  {
    var g := HundredthsText(d.hundredths);
    TargetShows(d.hundredths);
    TailMarks(e);
    assert Tail(d) == "TT:" + g + [':'] + Foot(d);
    if |d.name| < |e.name| {
      TargetHeld(d.name, g, Foot(d), e.name, Tail(e), avoid);
    }
  }

  lemma TargetHeld(n: string, g: string, x: string, m: string, y: string, avoid: set<char>)
    requires Free(g, ':') && g != "" && g[0] != 'T' && g[0] != 'S' && g[0] != '?'
    requires y != "" && (y[0] == 'T' || y[0] == 'S' || y[0] == '?')
    requires n + [':'] + ("TT:" + g + [':'] + x) == m + [':'] + y && |n| < |m| && Avoids(m, avoid)
    ensures Avoids(g, avoid)
  {
    TargetInside(n, g, x, m, y);
    var part := m[|n| + 4..|n| + 4 + |g|];
    assert forall i | 0 <= i < |g| :: part[i] == m[|n| + 4 + i];
  }

  lemma TailsDecide(d: Encoded, e: Encoded)
    requires d.name == e.name && Tail(d) == Tail(e)
    ensures d == e
  {
    TailMarks(d);
    TailMarks(e);
    if d.Unknown? {
      assert d.kind == Tail(d)[2..] && e.kind == Tail(e)[2..];
    } else {
      HeadsEqual(d, e, Foot(d), Foot(e));
      FeetDecide(d, e);
      PartsDecide(d, e);
    }
  }

  lemma PrintsTellApart(d: Encoded, e: Encoded, avoid: set<char>)
    requires TellsAlone(avoid) && Spelled(d, avoid) && Spelled(e, avoid) && Print(d) == Print(e)
    ensures d == e
  {
    if ':' in avoid {
      PrintInjective(d, e);
    } else {
      NameNotLonger(d, e, avoid);
      NameNotLonger(e, d, avoid);
      PrintsTail(d);
      PrintsTail(e);
      TextAfterName(d.name, Tail(d), e.name, Tail(e));
      TailsDecide(d, e);
    }
  }

  lemma TextAfterName(n: string, x: string, m: string, y: string)
    requires |n| == |m| && n + [':'] + x == m + [':'] + y
    ensures n == m && x == y
  {
    var s := n + [':'] + x;
    assert n == s[..|n|] && x == s[|n| + 1..];
    assert s == m + [':'] + y;
    assert m == s[..|n|] && y == s[|n| + 1..];
  }

  lemma FieldsBarFree(e: Encoded, avoid: set<char>)
    requires '|' in avoid && Spelled(e, avoid)
    ensures forall i | 0 <= i < |Fields(e)| :: Free(Fields(e)[i], '|')
  {
    match e
    case Tracking(_, h, _, _, _) => assert Free(HundredthsText(h), '|');
    case Stepping(_, _, _, adjustments) => NumbersFree(adjustments);
    case Unknown(_, _) =>
  }

  lemma PrintIsBarFree(e: Encoded, avoid: set<char>)
    requires '|' in avoid && Spelled(e, avoid)
    ensures Free(Print(e), '|') && Print(e) != ""
  {
    PrintsTail(e);
    FieldsBarFree(e, avoid);
    JoinFree(Fields(e), ':', '|');
  }

  lemma TextsTellApart(ds: seq<Encoded>, es: seq<Encoded>, avoid: set<char>)
    requires TellsAlone(avoid) && AllSpelled(ds, avoid) && AllSpelled(es, avoid) && TextOf(ds) == TextOf(es)
    ensures ds == es
  {
    forall e | e in ds || e in es ensures Free(Print(e), '|') && Print(e) != "" { PrintIsBarFree(e, avoid); }
    var (xs, ys) := (PrintAll(ds), PrintAll(es));
    assert xs != [] ==> |Join(xs, '|')| >= |xs[0]| >= 1;
    assert ys != [] ==> |Join(ys, '|')| >= |ys[0]| >= 1;
    if ds != [] {
      JoinInjective(xs, ys, '|');
      forall i | 0 <= i < |ds| ensures ds[i] == es[i] {
        assert xs[i] == Print(ds[i]) && ys[i] == Print(es[i]);
        PrintsTellApart(ds[i], es[i], avoid);
      }
    }
  }

  lemma SortedSpelled(es: seq<Encoded>, avoid: set<char>)
    requires AllSpelled(es, avoid)
    ensures AllSpelled(InOrder(es), avoid)
  {
    Sorting.SortCorrect(es, NameOf);
    forall e | e in InOrder(es) ensures e in es { assert e in multiset(InOrder(es)); }
  }

  lemma EnoughTellsAlone(avoid: set<char>)
    requires TellsAlone(avoid)
    ensures AloneTells(avoid)
  {
    forall ds, es | AllSpelled(ds, avoid) && AllSpelled(es, avoid) && Fingerprint(ds) == Fingerprint(es)
      ensures multiset(ds) == multiset(es)
    {
      SortedSpelled(ds, avoid);
      SortedSpelled(es, avoid);
      TextsTellApart(InOrder(ds), InOrder(es), avoid);
      OrderDecides(ds, es);
    }
  }

  /* ----- nothing less is enough ----- */

  lemma Refuted(ds: seq<Encoded>, es: seq<Encoded>, avoid: set<char>)
    requires AllSpelled(ds, avoid) && AllSpelled(es, avoid)
    requires Fingerprint(ds) == Fingerprint(es) && multiset(ds) != multiset(es)
    ensures !AloneTells(avoid)
  {
  }

  lemma OnePrints(e: Encoded)
    ensures Fingerprint([e]) == Print(e)
  {
    assert [e][1..] == [];
    assert Sorting.Sort([e], NameOf) == [e];
    assert PrintAll([e]) == [Print(e)];
  }

  lemma OneRefutes(d: Encoded, e: Encoded, avoid: set<char>)
    requires Spelled(d, avoid) && Spelled(e, avoid) && Print(d) == Print(e) && d != e
    ensures !AloneTells(avoid)
  {
    OnePrints(d);
    OnePrints(e);
    assert d in multiset([d]) && d !in multiset([e]);
    Refuted([d], [e], avoid);
  }

  lemma QuestionNeeded(avoid: set<char>)
    requires ':' !in avoid && '?' !in avoid
    ensures !AloneTells(avoid)
  {
    PrintUnknown("", "?:");
    PrintUnknown(":?", "");
    assert "" + ":?:" + "?:" == ":?" + ":?:" + "";
    OneRefutes(Unknown("", "?:"), Unknown(":?", ""), avoid);
  }

  lemma Slid(h: string, u: string, v: string)
    ensures "" + [':'] + ((h + ":") + ((h + ":") + [':'] + u + [':'] + v))
         == (":" + h) + [':'] + ((h + ":") + ("" + [':'] + u + [':'] + v))
  {
    var x := [':'] + u + [':'] + v;
    assert (h + ":") + [':'] + u + [':'] + v == (h + ":") + x && "" + [':'] + u + [':'] + v == x;
    assert "" + [':'] + ((h + ":") + ((h + ":") + x)) == (":" + h) + [':'] + ((h + ":") + x);
  }

  /** A policy whose string repeats the head, and one whose name does, print alike. */
  lemma HeadFools(proto: Encoded, h: string)
    requires Plain(proto) && Head(proto) == h + ":"
    ensures Print(Make(proto, "", h + ":")) == Print(Make(proto, ":" + h, ""))
  {
    var (d, e) := (Make(proto, "", h + ":"), Make(proto, ":" + h, ""));
    PrintIs(d);
    PrintIs(e);
    Slid(h, First(proto), Second(proto));
  }

  lemma HeadNeeded(proto: Encoded, h: string, avoid: set<char>)
    requires Plain(proto) && Head(proto) == h + ":" && ':' !in avoid && Avoids(h, avoid)
    ensures !AloneTells(avoid)
  {
    HeadFools(proto, h);
    OneRefutes(Make(proto, "", h + ":"), Make(proto, ":" + h, ""), avoid);
  }

  lemma ColonNeeded(avoid: set<char>)
    requires ':' !in avoid && !NamesStandOut(avoid)
    ensures !AloneTells(avoid)
  {
    if '?' !in avoid {
      QuestionNeeded(avoid);
    } else if 'S' !in avoid {
      ProtoParts(false, 0);
      HeadNeeded(Proto(false, 0), "SS", avoid);
    } else {
      var c :| c in DIGITS && c !in avoid;
      TargetNeeded(c as int - '0' as int, avoid);
    }
  }

  lemma TargetNeeded(n: nat, avoid: set<char>)
    requires n <= 9 && ':' !in avoid && 'T' !in avoid && '.' !in avoid && ('0' + n as char) !in avoid
    ensures !AloneTells(avoid)
  {
    var s := Decimal(n);
    ProtoParts(true, n);
    DigitText(n);
    HeadNeeded(Proto(true, n), "TT:" + (s + "." + s + s), avoid);
  }

  lemma TwoUnknowns(n0: string, k0: string, n1: string, k1: string)
    requires Sorting.Leq(n0, n1)
    ensures Fingerprint([Unknown(n0, k0), Unknown(n1, k1)]) == (n0 + ":?:" + k0) + ['|'] + (n1 + ":?:" + k1)
  {
    var two := [Unknown(n0, k0), Unknown(n1, k1)];
    SortedPair(two[0], two[1]);
    PrintUnknown(n0, k0);
    PrintUnknown(n1, k1);
    assert PrintAll(two) == [Print(two[0]), Print(two[1])];
    JoinTwo(Print(two[0]), Print(two[1]), '|');
  }

  lemma BarSlid(f: string)
    ensures ("" + f + "|") + ['|'] + ("" + f + "") == ("" + f + "") + ['|'] + ("|" + f + "")
  {
  }

  lemma BarFools()
    ensures Fingerprint([Unknown("", "|"), Unknown("", "")]) == Fingerprint([Unknown("", ""), Unknown("|", "")])
  {
    TwoUnknowns("", "|", "", "");
    TwoUnknowns("", "", "|", "");
    BarSlid(":?:");
  }

  lemma BarNeeded(avoid: set<char>)
    requires '|' !in avoid
    ensures !AloneTells(avoid)
  {
    var (d, e, f) := (Unknown("", "|"), Unknown("", ""), Unknown("|", ""));
    BarFools();
    PairsDiffer(d, e, e, f);
    assert Spelled(d, avoid) && Spelled(e, avoid) && Spelled(f, avoid);
    Refuted([d, e], [e, f], avoid);
  }

  /** Without the names, over policies of any type, the fingerprint shows the policies exactly
      when their strings avoid '|', and with it ':', or else '?', 'S' and one of 'T', '.' and
      all digits. */
  lemma AloneTellsIff(avoid: set<char>)
    ensures AloneTells(avoid) <==> TellsAlone(avoid)
  {
    if TellsAlone(avoid) {
      EnoughTellsAlone(avoid);
    } else if '|' !in avoid {
      BarNeeded(avoid);
    } else {
      ColonNeeded(avoid);
    }
  }
}
