/**
The name a job runs under. Lower-casing is a parameter: whatever it does to a character,
only letters, digits and hyphens get through.
*/
module JobNames {
  import opened Text

  type Lower = char -> char

  /** Unicode white space. */
  predicate IsSpace(c: char) {
    var n := c as int;
    || 0x09 <= n <= 0x0D || n == 0x20 || n == 0x85 || n == 0xA0 || n == 0x1680
    || 0x2000 <= n <= 0x200A || n == 0x2028 || n == 0x2029 || n == 0x202F || n == 0x205F || n == 0x3000
  }

  predicate IsAlnum(c: char) { 'a' <= c <= 'z' || IsDigit(c) }

  predicate Allowed(c: char) { IsAlnum(c) || c == '-' }

  predicate Forbidden(c: char) { !Allowed(c) }

  predicate IsHyphen(c: char) { c == '-' }

  function TrimLeft(s: string, p: char -> bool): string {
    if s != "" && p(s[0]) then TrimLeft(s[1..], p) else s
  }

  function TrimRight(s: string, p: char -> bool): string {
    if s != "" && p(s[|s| - 1]) then TrimRight(s[..|s| - 1], p) else s
  }

  function Trim(s: string, p: char -> bool): string { TrimRight(TrimLeft(s, p), p) }

  function Lowered(lower: Lower, s: string): string {
    if s == "" then "" else [lower(s[0])] + Lowered(lower, s[1..])
  }

  /** Each longest run of other characters becomes one hyphen. */
  function Collapse(s: string): string
    decreases |s|
  {
    if s == "" then ""
    else if Allowed(s[0]) then [s[0]] + Collapse(s[1..])
    else
      TrimLeftIs(s[1..], Forbidden);
      "-" + Collapse(TrimLeft(s[1..], Forbidden))
  }

  const DEFAULT_BASE := "provider-ephemeral-job"
  const MAX_NAME := 64

  function Normalized(lower: Lower, name: string): string {
    Trim(Collapse(Lowered(lower, Trim(name, IsSpace))), IsHyphen)
  }

  function Base(lower: Lower, name: string): string {
    var base := Normalized(lower, name);
    if base == "" then DEFAULT_BASE else base
  }

  function Suffix(now: int): string { "-" + IntText(now) }

  function Fitted(base: string, max: int): string
    requires 0 <= max
  {
    if |base| > max then TrimRight(base[..max], IsHyphen) else base
  }

  /** UnixNano is a 64-bit integer. */
  type Nanos = n: int | -0x8000_0000_0000_0000 <= n < 0x8000_0000_0000_0000

  function JobName(lower: Lower, name: string, now: Nanos): string {
    SuffixFits(now);
    Fitted(Base(lower, name), MAX_NAME - |Suffix(now)|) + Suffix(now)
  }

  function StartedBy(name: string): string {
    if |name| <= 36 then name else name[..36]
  }

  method AwsJobName(lower: Lower, input: string, now: Nanos) returns (name: string)
    ensures name == JobName(lower, input, now)
  {
    name := Lowered(lower, Trim(input, IsSpace));
    name := Collapse(name);
    name := Trim(name, IsHyphen);
    if name == "" { name := DEFAULT_BASE; }
    var suffix := Suffix(now);
    SuffixFits(now);
    var maxBase := MAX_NAME - |suffix|;
    if |name| > maxBase { name := TrimRight(name[..maxBase], IsHyphen); }
    name := name + suffix;
  }

  /* ----- trimming ----- */

  lemma {:induction false} TrimLeftIs(s: string, p: char -> bool)
    ensures var t := TrimLeft(s, p);
            && |t| <= |s| && t == s[|s| - |t|..]
            && (forall i | 0 <= i < |s| - |t| :: p(s[i]))
            && (t != "" ==> !p(t[0]))
  {
    if s != "" && p(s[0]) {
      TrimLeftIs(s[1..], p);
      var skipped := |s| - |TrimLeft(s, p)|;
      assert s[1..][skipped - 1..] == s[skipped..];
      assert forall i | 1 <= i < skipped :: s[i] == s[1..][i - 1];
    }
  }

  lemma {:induction false} TrimRightIs(s: string, p: char -> bool)
    ensures var t := TrimRight(s, p);
            && |t| <= |s| && t == s[..|t|]
            && (forall i | |t| <= i < |s| :: p(s[i]))
            && (t != "" ==> !p(t[|t| - 1]))
  {
    if s != "" && p(s[|s| - 1]) {
      TrimRightIs(s[..|s| - 1], p);
    }
  }

  /** A part of `s` that neither starts nor ends in what is trimmed. */
  lemma TrimIs(s: string, p: char -> bool)
    ensures var t := Trim(s, p);
            && (forall i | 0 <= i < |t| :: t[i] in s)
            && (t != "" ==> !p(t[0]) && !p(t[|t| - 1]))
  {
    TrimLeftIs(s, p);
    TrimRightIs(TrimLeft(s, p), p);
  }

  /* ----- the name's shape ----- */

  predicate AllAllowed(s: string) { forall i | 0 <= i < |s| :: Allowed(s[i]) }

  /** A base: letters, digits and hyphens, with no hyphen at either end. */
  predicate IsBase(s: string) {
    s != "" && AllAllowed(s) && IsAlnum(s[0]) && IsAlnum(s[|s| - 1])
  }

  lemma {:induction false} CollapseAllowed(s: string)
    ensures AllAllowed(Collapse(s))
    decreases |s|
  {
    if s != "" {
      if Allowed(s[0]) {
        CollapseAllowed(s[1..]);
      } else {
        TrimLeftIs(s[1..], Forbidden);
        CollapseAllowed(TrimLeft(s[1..], Forbidden));
      }
    }
  }

  lemma BaseIsBase(lower: Lower, name: string)
    ensures IsBase(Base(lower, name))
  {
    var collapsed := Collapse(Lowered(lower, Trim(name, IsSpace)));
    CollapseAllowed(collapsed);
    CollapseAllowed(Lowered(lower, Trim(name, IsSpace)));
    TrimIs(collapsed, IsHyphen);
  }

  lemma FittedIsBase(base: string, max: int)
    requires IsBase(base) && max >= 1
    ensures IsBase(Fitted(base, max)) && |Fitted(base, max)| <= max && Fitted(base, max) <= base
  {
    if |base| > max {
      TrimRightIs(base[..max], IsHyphen);
      assert base[..max][0] == base[0];
      var t := TrimRight(base[..max], IsHyphen);
      assert t == "" ==> IsHyphen(base[..max][0]);
      assert Allowed(t[|t| - 1]);
    }
  }

  lemma SuffixFits(now: Nanos)
    ensures 2 <= |Suffix(now)| <= 21 && AllAllowed(Suffix(now))
  {
    assert PowerOfTen(19) == 10_000_000_000_000_000_000 by { PowersOfTen(); }
    var n: int := now;
    DecimalLength(if n < 0 then -n else n, 19);
  }

  lemma PowersOfTen()
    ensures PowerOfTen(19) == 10_000_000_000_000_000_000
  {
    assert PowerOfTen(4) == 10_000;
    assert PowerOfTen(8) == 100_000_000;
    assert PowerOfTen(12) == 1_000_000_000_000;
    assert PowerOfTen(16) == 10_000_000_000_000_000;
  }

  /** For every input and every time, a name of at most 64 letters, digits and hyphens: a
      non-empty base that neither starts nor ends in a hyphen, then the time; and what a task
      is started by is a prefix of it of at most 36 characters. */
  lemma JobNameShape(lower: Lower, name: string, now: Nanos)
    ensures var r := JobName(lower, name, now);
            && |r| <= MAX_NAME && AllAllowed(r) && IsAlnum(r[0])
            && |r| > |Suffix(now)| && r[|r| - |Suffix(now)|..] == Suffix(now)
            && IsBase(r[..|r| - |Suffix(now)|]) && r[..|r| - |Suffix(now)|] <= Base(lower, name)
            && StartedBy(r) <= r && |StartedBy(r)| == if |r| < 36 then |r| else 36
  {
    BaseIsBase(lower, name);
    SuffixFits(now);
    var base := Fitted(Base(lower, name), MAX_NAME - |Suffix(now)|);
    FittedIsBase(Base(lower, name), MAX_NAME - |Suffix(now)|);
    var r := base + Suffix(now);
    assert r[..|base|] == base && r[|base|..] == Suffix(now);
  }

  /* ----- what the name keeps ----- */

  function Digits(now: int): string { Decimal(if now < 0 then -now else now) }

  function Sign(now: int): string { if now < 0 then "-" else "" }

  lemma NameSplits(lower: Lower, name: string, now: Nanos) returns (base: string)
    ensures IsBase(base) && JobName(lower, name, now) == base + Sign(now) + ['-'] + Digits(now)
  {
    SuffixFits(now);
    BaseIsBase(lower, name);
    base := Fitted(Base(lower, name), MAX_NAME - |Suffix(now)|);
    FittedIsBase(Base(lower, name), MAX_NAME - |Suffix(now)|);
    SuffixSplits(base, now);
  }

  lemma SuffixSplits(base: string, now: int)
    ensures base + Suffix(now) == base + Sign(now) + ['-'] + Digits(now)
  {
    assert Suffix(now) == Sign(now) + (['-'] + Digits(now));
  }

  /** A base does not end in a hyphen, so a hyphen before the last one is a sign. */
  lemma SignShows(a: string, b: string, s: int, t: int)
    requires IsBase(a) && IsBase(b) && a + Sign(s) == b + Sign(t)
    ensures a == b && (s < 0 <==> t < 0)
  {
    var x := a + Sign(s);
    assert x[|x| - 1] == '-' <==> s < 0;
    assert x == b + Sign(t);
    assert x[|x| - 1] == '-' <==> t < 0;
    assert a == x[..|x| - |Sign(s)|] && b == x[..|x| - |Sign(t)|];
  }

  lemma TimesShow(x: string, y: string, s: int, t: int)
    requires IsBase(x) && IsBase(y) && x + Sign(s) + ['-'] + Digits(s) == y + Sign(t) + ['-'] + Digits(t)
    ensures s == t
  {
    LastPart(x + Sign(s), y + Sign(t), Digits(s), Digits(t), '-');
    SignShows(x, y, s, t);
    DecimalInjective(if s < 0 then -s else s, if t < 0 then -t else t);
  }

  /** Jobs started at different times have different names. */
  lemma TimesTellNamesApart(lower: Lower, a: string, b: string, s: Nanos, t: Nanos)
    requires JobName(lower, a, s) == JobName(lower, b, t)
    ensures s == t
  {
    var x := NameSplits(lower, a, s);
    var y := NameSplits(lower, b, t);
    TimesShow(x, y, s, t);
  }

  lemma {:induction false} CollapseKeeps(s: string)
    requires AllAllowed(s)
    ensures Collapse(s) == s
  {
    if s != "" {
      CollapseKeeps(s[1..]);
    }
  }

  lemma {:induction false} LoweredKeeps(lower: Lower, s: string)
    requires AllAllowed(s) && forall c | Allowed(c) :: lower(c) == c
    ensures Lowered(lower, s) == s
  {
    if s != "" {
      LoweredKeeps(lower, s[1..]);
    }
  }

  /** A name that is a base already is kept, so normalizing twice is normalizing once. */
  lemma NormalizedKeepsBase(lower: Lower, s: string)
    requires IsBase(s) && forall c | Allowed(c) :: lower(c) == c
    ensures Normalized(lower, s) == s
  {
    assert Trim(s, IsSpace) == s;
    LoweredKeeps(lower, s);
    CollapseKeeps(s);
  }

  lemma BaseTwice(lower: Lower, name: string)
    requires forall c | Allowed(c) :: lower(c) == c
    ensures Base(lower, Base(lower, name)) == Base(lower, name)
  {
    BaseIsBase(lower, name);
    NormalizedKeepsBase(lower, Base(lower, name));
  }

  /** The letters and digits of a string after `f`, in order. */
  function Kept(f: Lower, s: string): string {
    if s == "" then ""
    else (if IsAlnum(f(s[0])) then [f(s[0])] else "") + Kept(f, s[1..])
  }

  function Same(c: char): char { c }

  lemma {:induction false} KeptAppend(f: Lower, s: string, c: char)
    ensures Kept(f, s + [c]) == Kept(f, s) + if IsAlnum(f(c)) then [f(c)] else ""
  {
    if s != "" {
      assert (s + [c])[1..] == s[1..] + [c];
      KeptAppend(f, s[1..], c);
    } else {
      assert s + [c] == [c] && [c][1..] == "";
    }
  }

  lemma {:induction false} KeptTrimLeft(f: Lower, s: string, p: char -> bool)
    requires forall c | p(c) :: !IsAlnum(f(c))
    ensures Kept(f, TrimLeft(s, p)) == Kept(f, s)
  {
    if s != "" && p(s[0]) {
      KeptTrimLeft(f, s[1..], p);
    }
  }

  lemma {:induction false} KeptTrimRight(f: Lower, s: string, p: char -> bool)
    requires forall c | p(c) :: !IsAlnum(f(c))
    ensures Kept(f, TrimRight(s, p)) == Kept(f, s)
  {
    if s != "" && p(s[|s| - 1]) {
      KeptTrimRight(f, s[..|s| - 1], p);
      KeptAppend(f, s[..|s| - 1], s[|s| - 1]);
      assert s == s[..|s| - 1] + [s[|s| - 1]];
    }
  }

  lemma {:induction false} KeptCollapse(s: string)
    ensures Kept(Same, Collapse(s)) == Kept(Same, s)
    decreases |s|
  {
    if s != "" {
      if Allowed(s[0]) {
        KeptCollapse(s[1..]);
        assert ([s[0]] + Collapse(s[1..]))[1..] == Collapse(s[1..]);
      } else {
        var rest := TrimLeft(s[1..], Forbidden);
        TrimLeftIs(s[1..], Forbidden);
        KeptTrimLeft(Same, s[1..], Forbidden);
        KeptCollapse(rest);
        assert ("-" + Collapse(rest))[1..] == Collapse(rest);
      }
    }
  }

  lemma {:induction false} KeptLowered(lower: Lower, s: string)
    ensures Kept(Same, Lowered(lower, s)) == Kept(lower, s)
  {
    if s != "" {
      KeptLowered(lower, s[1..]);
      assert Lowered(lower, s)[1..] == Lowered(lower, s[1..]);
    }
  }

  /** Normalizing loses no letter or digit of the lower-cased name and adds none. */
  lemma NormalizingKeepsLetters(lower: Lower, name: string)
    requires forall c | IsSpace(c) :: !IsAlnum(lower(c))
    ensures Kept(Same, Normalized(lower, name)) == Kept(lower, name)
  {
    var lowered := Lowered(lower, Trim(name, IsSpace));
    KeptTrimLeft(lower, name, IsSpace);
    KeptTrimRight(lower, TrimLeft(name, IsSpace), IsSpace);
    KeptLowered(lower, Trim(name, IsSpace));
    KeptCollapse(lowered);
    KeptTrimLeft(Same, Collapse(lowered), IsHyphen);
    KeptTrimRight(Same, TrimLeft(Collapse(lowered), IsHyphen), IsHyphen);
  }

  /* ----- what is cut, and what is replaced ----- */

  /** A base that fits is kept whole; of another as much is kept as fits and does not end in
      a hyphen. */
  lemma FittedMeans(base: string, max: nat)
    ensures var fitted := Fitted(base, max);
            if |base| <= max then fitted == base
            else
              && |fitted| <= max && fitted == base[..|fitted|]
              && (fitted != "" ==> fitted[|fitted| - 1] != '-') && forall i | |fitted| <= i < max :: base[i] == '-'
  {
    if |base| > max {
      TrimRightIs(base[..max], IsHyphen);
      assert forall i | 0 <= i < max :: base[..max][i] == base[i];
    }
  }

  /** Parts with gaps between them. */
  function Woven(parts: seq<string>, gaps: seq<string>): string
    requires |parts| == |gaps| + 1
  {
    if gaps == [] then parts[0] else parts[0] + (gaps[0] + Woven(parts[1..], gaps[1..]))
  }

  /** Parts of allowed characters, of which none but the first and last may be empty, and
      gaps of others. */
  predicate Separated(parts: seq<string>, gaps: seq<string>) {
    && |parts| == |gaps| + 1
    && (forall part | part in parts :: AllAllowed(part))
    && (forall gap | gap in gaps :: gap != "" && forall i | 0 <= i < |gap| :: Forbidden(gap[i]))
    && (forall i | 0 < i < |parts| - 1 :: parts[i] != "")
  }

  lemma {:induction false} CollapseAfterAllowed(part: string, rest: string)
    requires AllAllowed(part)
    ensures Collapse(part + rest) == part + Collapse(rest)
  {
    if part == "" {
      assert part + rest == rest;
    } else {
      assert (part + rest)[1..] == part[1..] + rest;
      CollapseAfterAllowed(part[1..], rest);
    }
  }

  lemma {:induction false} TrimAll(gap: string, rest: string)
    requires (forall i | 0 <= i < |gap| :: Forbidden(gap[i])) && (rest == "" || Allowed(rest[0]))
    ensures TrimLeft(gap + rest, Forbidden) == rest
  {
    if gap == "" {
      assert gap + rest == rest;
    } else {
      assert (gap + rest)[1..] == gap[1..] + rest;
      TrimAll(gap[1..], rest);
    }
  }

  lemma CollapseAfterGap(gap: string, rest: string)
    requires gap != "" && (forall i | 0 <= i < |gap| :: Forbidden(gap[i])) && (rest == "" || Allowed(rest[0]))
    ensures Collapse(gap + rest) == "-" + Collapse(rest)
  {
    assert (gap + rest)[1..] == gap[1..] + rest;
    TrimAll(gap[1..], rest);
    TrimLeftIs((gap + rest)[1..], Forbidden);
  }

  lemma SeparatedTail(parts: seq<string>, gaps: seq<string>)
    requires Separated(parts, gaps) && gaps != []
    ensures Separated(parts[1..], gaps[1..])
    ensures AllAllowed(parts[0]) && gaps[0] != "" && forall i | 0 <= i < |gaps[0]| :: Forbidden(gaps[0][i])
    ensures Woven(parts[1..], gaps[1..]) == "" || Allowed(Woven(parts[1..], gaps[1..])[0])
  {
    var (ps, gs) := (parts[1..], gaps[1..]);
    assert parts[0] in parts && gaps[0] in gaps && forall p | p in ps :: p in parts;
    assert forall g | g in gs :: g in gaps;
    assert ps[0] in parts;
    assert gs != [] ==> ps[0] == parts[1] && ps[0] != "";
  }

  lemma OneGap(part: string, gap: string, rest: string)
    requires AllAllowed(part) && gap != "" && (forall i | 0 <= i < |gap| :: Forbidden(gap[i]))
    requires rest == "" || Allowed(rest[0])
    ensures Collapse(part + (gap + rest)) == part + ['-'] + Collapse(rest)
  {
    CollapseAfterAllowed(part, gap + rest);
    CollapseAfterGap(gap, rest);
    HyphenBetween(part, Collapse(rest));
  }

  lemma HyphenBetween(a: string, b: string)
    ensures a + ("-" + b) == a + ['-'] + b
  {
  }

  /** Each gap becomes one hyphen, and the parts are kept. */
  lemma {:induction false} GapsBecomeHyphens(parts: seq<string>, gaps: seq<string>)
    requires Separated(parts, gaps)
    ensures Collapse(Woven(parts, gaps)) == Join(parts, '-')
  {
    if gaps == [] {
      assert parts[0] in parts;
      CollapseKeeps(parts[0]);
    } else {
      SeparatedTail(parts, gaps);
      GapsBecomeHyphens(parts[1..], gaps[1..]);
      OneGap(parts[0], gaps[0], Woven(parts[1..], gaps[1..]));
    }
  }

  lemma LongerPart(c: char, ps: seq<string>, gs: seq<string>)
    requires Separated(ps, gs) && Allowed(c)
    ensures var parts := [[c] + ps[0]] + ps[1..]; Separated(parts, gs) && Woven(parts, gs) == [c] + Woven(ps, gs)
  {
    var parts := [[c] + ps[0]] + ps[1..];
    assert ps[0] in ps && forall p | p in ps[1..] :: p in ps;
    assert forall i | 0 < i < |ps| :: parts[i] == ps[i];
    if gs != [] {
      assert parts[1..] == ps[1..];
      assert [c] + ps[0] + (gs[0] + Woven(ps[1..], gs[1..])) == [c] + (ps[0] + (gs[0] + Woven(ps[1..], gs[1..])));
    }
  }

  lemma LongerGap(c: char, ps: seq<string>, gs: seq<string>)
    requires Separated(ps, gs) && Forbidden(c) && gs != [] && ps[0] == ""
    ensures var gaps := [[c] + gs[0]] + gs[1..]; Separated(ps, gaps) && Woven(ps, gaps) == [c] + Woven(ps, gs)
  {
    var gaps := [[c] + gs[0]] + gs[1..];
    assert gs[0] in gs && forall g | g in gs[1..] :: g in gs;
    assert gaps[1..] == gs[1..];
    EmptyFirst(c, gs[0], Woven(ps[1..], gs[1..]));
  }

  lemma EmptyFirst(c: char, gap: string, rest: string)
    ensures "" + ([c] + gap + rest) == [c] + ("" + (gap + rest))
  {
  }

  lemma NewGap(c: char, ps: seq<string>, gs: seq<string>)
    requires Separated(ps, gs) && Forbidden(c) && (gs != [] ==> ps[0] != "")
    ensures var (parts, gaps) := ([""] + ps, [[c]] + gs); Separated(parts, gaps) && Woven(parts, gaps) == [c] + Woven(ps, gs)
  {
    var (parts, gaps) := ([""] + ps, [[c]] + gs);
    assert parts[1..] == ps && gaps[1..] == gs;
    assert forall i | 0 < i < |parts| :: parts[i] == ps[i - 1];
    assert "" + ([c] + Woven(ps, gs)) == [c] + Woven(ps, gs);
  }

  /** Every string is such parts and gaps. */
  lemma {:induction false} SomeParts(s: string) returns (parts: seq<string>, gaps: seq<string>)
    ensures Separated(parts, gaps) && Woven(parts, gaps) == s
    ensures s != "" && Forbidden(s[0]) ==> parts[0] == ""
  {
    if s == "" {
      parts, gaps := [""], [];
    } else {
      var ps, gs := SomeParts(s[1..]);
      assert s == [s[0]] + s[1..];
      if Allowed(s[0]) {
        LongerPart(s[0], ps, gs);
        parts, gaps := [[s[0]] + ps[0]] + ps[1..], gs;
      } else if gs != [] && ps[0] == "" {
        LongerGap(s[0], ps, gs);
        parts, gaps := ps, [[s[0]] + gs[0]] + gs[1..];
      } else {
        NewGap(s[0], ps, gs);
        parts, gaps := [""] + ps, [[s[0]]] + gs;
      }
    }
  }

  /** Normalizing a name joins its allowed parts, in lower case, by hyphens and trims those. */
  lemma NormalizedJoins(lower: Lower, name: string) returns (parts: seq<string>, gaps: seq<string>)
    ensures Separated(parts, gaps) && Woven(parts, gaps) == Lowered(lower, Trim(name, IsSpace))
    ensures Normalized(lower, name) == Trim(Join(parts, '-'), IsHyphen)
  {
    parts, gaps := SomeParts(Lowered(lower, Trim(name, IsSpace)));
    GapsBecomeHyphens(parts, gaps);
  }

  /** A normalized name that leaves room for the time is kept whole; an empty one is replaced. */
  lemma ShortNameKept(lower: Lower, name: string, now: Nanos)
    ensures var base := Normalized(lower, name);
            && (base != "" && |base| + 1 + |IntText(now)| <= 64 ==> JobName(lower, name, now) == base + "-" + IntText(now))
            && (base == "" ==> JobName(lower, name, now) == "provider-ephemeral-job-" + IntText(now))
  {
    SuffixFits(now);
    assert |"provider-ephemeral-job"| == 22;
    assert "provider-ephemeral-job" + ("-" + IntText(now)) == "provider-ephemeral-job-" + IntText(now);
  }
}
