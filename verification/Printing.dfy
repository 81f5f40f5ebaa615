/**
How the fingerprint prints a policy of a known type, taken apart: name, kind and target,
the one string of the type, and two numeric fields. Two lists that print alike and whose
names join alike are the same list when their strings avoid enough characters.
*/
module Printing {
  import opened Policies
  import opened Text
  import Mapping

  predicate Plain(e: Encoded) { !e.Unknown? }

  predicate AllPlain(es: seq<Encoded>) { forall e | e in es :: Plain(e) }

  /** What comes before the string of the type, the string, and the two fields after it. */
  function Head(e: Encoded): string
    requires Plain(e)
  {
    match e
    case Tracking(_, h, _, _, _) => "TT:" + HundredthsText(h) + ":"
    case Stepping(_, _, _, _) => "SS:"
  }

  function Mid(e: Encoded): string
    requires Plain(e)
  {
    match e case Tracking(_, _, metric, _, _) => metric case Stepping(_, adjustmentType, _, _) => adjustmentType
  }

  function First(e: Encoded): string
    requires Plain(e)
  {
    match e case Tracking(_, _, _, i, _) => IntText(i) case Stepping(_, _, cooldown, _) => IntText(cooldown)
  }

  function Second(e: Encoded): string
    requires Plain(e)
  {
    match e case Tracking(_, _, _, _, o) => IntText(o) case Stepping(_, _, _, adjustments) => Join(IntTexts(adjustments), '+')
  }

  function Foot(e: Encoded): string
    requires Plain(e)
  {
    Mid(e) + [':'] + First(e) + [':'] + Second(e)
  }

  lemma JoinFields(a: string, rest: seq<string>)
    requires rest != []
    ensures Join([a] + rest, ':') == a + [':'] + Join(rest, ':')
  {
    assert ([a] + rest)[1..] == rest;
  }

  lemma FootIs(mid: string, u: string, v: string)
    ensures Join([mid, u, v], ':') == mid + [':'] + u + [':'] + v
  {
    JoinFields(mid, [u, v]);
    JoinFields(u, [v]);
    assert [mid] + [u, v] == [mid, u, v] && [u] + [v] == [u, v];
    assert mid + [':'] + (u + [':'] + v) == mid + [':'] + u + [':'] + v;
  }

  lemma KindThenFoot(text: string, foot: seq<string>)
    requires foot != []
    ensures Join(["TT", text] + foot, ':') == ("TT:" + text + ":") + Join(foot, ':')
  {
    JoinFields(text, foot);
    JoinFields("TT", [text] + foot);
    assert ["TT", text] + foot == ["TT"] + ([text] + foot);
    assert "TT" + [':'] + (text + [':'] + Join(foot, ':')) == ("TT:" + text + ":") + Join(foot, ':');
  }

  lemma TrackingPrints(name: string, h: int, metric: string, i: int, o: int)
    ensures var e := Tracking(name, h, metric, i, o); Print(e) == name + [':'] + (Head(e) + Foot(e))
  {
    var (text, u, v) := (HundredthsText(h), IntText(i), IntText(o));
    FootIs(metric, u, v);
    KindThenFoot(text, [metric, u, v]);
    var fields := ["TT", text] + [metric, u, v];
    JoinFields(name, fields);
    assert [name] + fields == [name, "TT", text, metric, u, v];
  }

  lemma SteppingPrints(name: string, adjustmentType: string, cooldown: int, adjustments: seq<int>)
    ensures var e := Stepping(name, adjustmentType, cooldown, adjustments); Print(e) == name + [':'] + (Head(e) + Foot(e))
  {
    var (u, v) := (IntText(cooldown), Join(IntTexts(adjustments), '+'));
    FootIs(adjustmentType, u, v);
    var foot := [adjustmentType, u, v];
    JoinFields("SS", foot);
    JoinFields(name, ["SS"] + foot);
    assert [name] + (["SS"] + foot) == [name, "SS", adjustmentType, u, v];
    assert "SS" + [':'] + Join(foot, ':') == "SS:" + Join(foot, ':');
  }

  lemma PrintIs(e: Encoded)
    requires Plain(e)
    ensures Print(e) == e.name + [':'] + (Head(e) + Foot(e))
  {
    match e
    case Tracking(name, h, metric, i, o) => TrackingPrints(name, h, metric, i, o);
    case Stepping(name, adjustmentType, cooldown, adjustments) => SteppingPrints(name, adjustmentType, cooldown, adjustments);
  }

  /* ----- the parts tell policies apart ----- */

  /** Characters of the numeric fields. */
  predicate Numeric(s: string) { forall i | 0 <= i < |s| :: IsDigit(s[i]) || s[i] == '-' || s[i] == '+' }

  lemma {:induction false} JoinNumeric(parts: seq<string>)
    requires forall p | p in parts :: Numeric(p)
    ensures Numeric(Join(parts, '+'))
  {
    assert parts != [] ==> parts[0] in parts && Numeric(parts[0]);
    if |parts| >= 2 {
      JoinNumeric(parts[1..]);
    }
  }

  lemma FieldsNumeric(e: Encoded)
    requires Plain(e)
    ensures Numeric(First(e)) && Numeric(Second(e)) && First(e) != ""
  {
    if e.Stepping? {
      var texts := IntTexts(e.adjustments);
      forall p | p in texts ensures Numeric(p) {
        var i :| 0 <= i < |texts| && texts[i] == p;
        assert p == IntText(e.adjustments[i]);
      }
      JoinNumeric(texts);
    }
  }

  lemma FirstShowsDigit(e: Encoded)
    requires Plain(e)
    ensures IsDigit(First(e)[|First(e)| - 1])
  {
  }

  lemma TargetFree(h: int)
    ensures Free(HundredthsText(h), ':')
  {
  }

  lemma TargetsEqual(g: string, h: string, x: string, y: string)
    requires Free(g, ':') && Free(h, ':') && ("TT:" + g + ":") + x == ("TT:" + h + ":") + y
    ensures g == h && x == y
  {
    var s := ("TT:" + g + ":") + x;
    assert s[3..] == g + [':'] + x;
    assert s == ("TT:" + h + ":") + y;
    assert s[3..] == h + [':'] + y;
    FirstPart(g, h, x, y, ':');
  }

  lemma KindsEqual(d: Encoded, e: Encoded, x: string, y: string)
    requires Plain(d) && Plain(e) && Head(d) + x == Head(e) + y
    ensures d.Tracking? <==> e.Tracking?
  {
    assert (Head(d) + x)[0] == Head(d)[0] && (Head(e) + y)[0] == Head(e)[0];
  }

  /** Kind and target show at once. */
  lemma HeadsEqual(d: Encoded, e: Encoded, x: string, y: string)
    requires Plain(d) && Plain(e) && Head(d) + x == Head(e) + y
    ensures Head(d) == Head(e) && x == y && (d.Tracking? <==> e.Tracking?)
    ensures d.Tracking? ==> d.hundredths == e.hundredths
  {
    KindsEqual(d, e, x, y);
    if d.Tracking? {
      TargetFree(d.hundredths);
      TargetFree(e.hundredths);
      TargetsEqual(HundredthsText(d.hundredths), HundredthsText(e.hundredths), x, y);
      HundredthsInjective(d.hundredths, e.hundredths);
    } else {
      assert ("SS:" + x)[3..] == x && ("SS:" + y)[3..] == y;
    }
  }

  lemma PartsDecide(d: Encoded, e: Encoded)
    requires Plain(d) && Plain(e) && d.name == e.name && (d.Tracking? <==> e.Tracking?)
    requires d.Tracking? ==> d.hundredths == e.hundredths
    requires Mid(d) == Mid(e) && First(d) == First(e) && Second(d) == Second(e)
    ensures d == e
  {
    match d
    case Tracking(_, _, _, i, o) =>
      IntTextInjective(i, e.inCooldown);
      IntTextInjective(o, e.outCooldown);
    case Stepping(_, _, cooldown, adjustments) =>
      IntTextInjective(cooldown, e.cooldown);
      IntsInjective(adjustments, e.adjustments);
  }

  lemma FeetDecide(d: Encoded, e: Encoded)
    requires Plain(d) && Plain(e) && Foot(d) == Foot(e)
    ensures Mid(d) == Mid(e) && First(d) == First(e) && Second(d) == Second(e)
  {
    FieldsNumeric(d);
    FieldsNumeric(e);
    LastPart(Mid(d) + [':'] + First(d), Mid(e) + [':'] + First(e), Second(d), Second(e), ':');
    LastPart(Mid(d), Mid(e), First(d), First(e), ':');
  }

  /* ----- texts of lists ----- */

  function TextOf(es: seq<Encoded>): string { Join(PrintAll(es), '|') }

  function Names(es: seq<Encoded>): seq<string> { Mapping.Map(es, NameOf) }

  /** What follows the print of the first policy. */
  function Rest(es: seq<Encoded>): string { if es == [] then "" else ['|'] + TextOf(es) }

  lemma Glue(name: string, head: string, foot: string, rest: string)
    ensures (name + [':'] + (head + foot)) + rest == name + [':'] + (head + (foot + rest))
  {
  }

  lemma TextOfFirst(es: seq<Encoded>)
    requires es != []
    ensures TextOf(es) == Print(es[0]) + Rest(es[1..])
  {
    assert PrintAll(es)[1..] == PrintAll(es[1..]);
    assert |es| > 1 ==> Print(es[0]) + ['|'] + TextOf(es[1..]) == Print(es[0]) + (['|'] + TextOf(es[1..]));
  }

  lemma TextIs(es: seq<Encoded>)
    requires es != [] && Plain(es[0])
    ensures TextOf(es) == es[0].name + [':'] + (Head(es[0]) + (Foot(es[0]) + Rest(es[1..])))
  {
    TextOfFirst(es);
    PrintIs(es[0]);
    Glue(es[0].name, Head(es[0]), Foot(es[0]), Rest(es[1..]));
  }

  lemma NamesAre(es: seq<Encoded>)
    requires es != []
    ensures Join(Names(es), ',') ==
              if |es| == 1 then es[0].name else es[0].name + [','] + Join(Names(es[1..]), ',')
  {
    assert Names(es)[1..] == Names(es[1..]);
  }

  lemma NoText(es: seq<Encoded>)
    requires AllPlain(es)
    ensures TextOf(es) == "" <==> es == []
  {
    if es != [] { TextIs(es); }
  }

  /** In joined names a ',' follows the first name, in the text a ':', so both together show it. */
  lemma FirstNames(d: string, e: string, moreD: string, moreE: string, x: string, y: string)
    requires d + moreD == e + moreE && (moreD == "" || moreD[0] == ',') && (moreE == "" || moreE[0] == ',')
    requires d + [':'] + x == e + [':'] + y
    ensures d == e && moreD == moreE && x == y
  {
    var (s, t) := (d + moreD, d + [':'] + x);
    assert t[|d|] == ':' && t[|e|] == ':';
    assert |d| < |s| ==> s[|d|] == ',';
    assert |e| < |s| ==> s[|e|] == ',';
    assert forall i | 0 <= i < |d| :: s[i] == d[i] == t[i];
    assert forall i | 0 <= i < |e| :: s[i] == e[i] == t[i];
    assert |d| == |e|;
    assert d == s[..|d|] && e == s[..|e|];
    assert moreD == s[|d|..] && moreE == s[|e|..];
    assert x == t[|d| + 1..] && y == t[|e| + 1..];
  }

  /** What follows the first name in the joined names. */
  function More(es: seq<Encoded>): string { if es == [] then "" else [','] + Join(Names(es), ',') }

  lemma NamesAndMore(es: seq<Encoded>)
    requires es != []
    ensures Join(Names(es), ',') == es[0].name + More(es[1..])
  {
    NamesAre(es);
    assert |es| > 1 ==> es[0].name + [','] + Join(Names(es[1..]), ',') == es[0].name + ([','] + Join(Names(es[1..]), ','));
  }

  lemma MoreShows(ds: seq<Encoded>, es: seq<Encoded>)
    requires More(ds) == More(es)
    ensures (ds == [] <==> es == []) && Join(Names(ds), ',') == Join(Names(es), ',')
  {
    if ds != [] {
      assert More(ds)[1..] == Join(Names(ds), ',') && More(es)[1..] == Join(Names(es), ',');
    } else {
      assert Names(ds) == [] && Names(es) == [];
    }
  }

  /** Lists with the same text and the same joined names agree on the first name, and what
      is left of both is again the same. */
  lemma FirstNameShows(ds: seq<Encoded>, es: seq<Encoded>)
    requires ds != [] && es != [] && Plain(ds[0]) && Plain(es[0])
    requires Join(Names(ds), ',') == Join(Names(es), ',') && TextOf(ds) == TextOf(es)
    ensures ds[0].name == es[0].name && (ds[1..] == [] <==> es[1..] == [])
    ensures Join(Names(ds[1..]), ',') == Join(Names(es[1..]), ',')
    ensures Head(ds[0]) + (Foot(ds[0]) + Rest(ds[1..])) == Head(es[0]) + (Foot(es[0]) + Rest(es[1..]))
  {
    TextIs(ds);
    TextIs(es);
    NamesAndMore(ds);
    NamesAndMore(es);
    FirstNames(ds[0].name, es[0].name, More(ds[1..]), More(es[1..]),
               Head(ds[0]) + (Foot(ds[0]) + Rest(ds[1..])), Head(es[0]) + (Foot(es[0]) + Rest(es[1..])));
    MoreShows(ds[1..], es[1..]);
  }
}
