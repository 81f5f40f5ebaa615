/** Strings as the source prints, cuts and joins them. */
module Text {
  predicate HasPrefix(s: string, prefix: string) {
    |prefix| <= |s| && s[..|prefix|] == prefix
  }

  predicate HasSuffix(s: string, suffix: string) {
    |suffix| <= |s| && s[|s| - |suffix|..] == suffix
  }

  /** Text to which a suffix was appended ends in it. */
  lemma SuffixOfConcat(s: string, suffix: string)
    ensures HasSuffix(s + suffix, suffix)
  {
    assert (s + suffix)[|s|..] == suffix;
  }

  /** The k-th character from the end is the suffix's own. */
  lemma SuffixChar(s: string, suffix: string, k: nat)
    requires 1 <= k <= |suffix|
    ensures HasSuffix(s, suffix) ==> k <= |s| && s[|s| - k] == suffix[|suffix| - k]
  {
    if HasSuffix(s, suffix) {
      assert s[|s| - |suffix|..][|suffix| - k] == s[|s| - k];
    }
  }

  /** Suffixes that disagree on a character, counted from the end, are never both
      suffixes of one string. */
  lemma SuffixesClash(s: string, a: string, b: string, k: nat)
    requires 1 <= k <= |a| && k <= |b| && a[|a| - k] != b[|b| - k]
    ensures !(HasSuffix(s, a) && HasSuffix(s, b))
  {
    SuffixChar(s, a, k);
    SuffixChar(s, b, k);
  }

  /* ----- decimal printing (the %d of the source) ----- */

  predicate IsDigit(c: char) { '0' <= c <= '9' }

  function Decimal(n: nat): (s: string)
    ensures |s| >= 1 && forall i :: 0 <= i < |s| ==> IsDigit(s[i])
  {
    if n < 10 then ['0' + n as char] else Decimal(n / 10) + ['0' + (n % 10) as char]
  }

  function DecimalValue(s: string): nat
    requires forall i :: 0 <= i < |s| ==> IsDigit(s[i])
  {
    if s == "" then 0
    else
      var last := s[|s| - 1];
      assert IsDigit(last);
      10 * DecimalValue(s[..|s| - 1]) + (last as int - '0' as int)
  }

  lemma {:induction false} DecimalRoundTrip(n: nat)
    ensures DecimalValue(Decimal(n)) == n
  {
    if n >= 10 {
      DecimalRoundTrip(n / 10);
      assert Decimal(n)[..|Decimal(n)| - 1] == Decimal(n / 10);
    } else {
      assert Decimal(n)[..0] == "";
    }
  }

  lemma DecimalInjective(a: nat, b: nat)
    requires Decimal(a) == Decimal(b)
    ensures a == b
  {
    DecimalRoundTrip(a);
    DecimalRoundTrip(b);
  }

  function PowerOfTen(k: nat): nat { if k == 0 then 1 else 10 * PowerOfTen(k - 1) }

  lemma {:induction false} DecimalLength(n: nat, k: nat)
    requires k >= 1 && n < PowerOfTen(k)
    ensures |Decimal(n)| <= k
  {
    if n >= 10 {
      DecimalLength(n / 10, k - 1);
    }
  }

  function IntText(i: int): (s: string)
    ensures |s| >= 1 && (s[0] == '-' <==> i < 0)
    ensures forall k :: 0 <= k < |s| ==> IsDigit(s[k]) || s[k] == '-'
  {
    if i < 0 then "-" + Decimal(-i) else Decimal(i)
  }

  /** The text spells the number. */
  lemma IntTextSpells(i: int)
    ensures var digits := IntText(i)[if i < 0 then 1 else 0..];
            (forall k | 0 <= k < |digits| :: IsDigit(digits[k])) && DecimalValue(digits) == if i < 0 then -i else i
  {
    DecimalRoundTrip(if i < 0 then -i else i);
    if i < 0 { assert IntText(i)[1..] == Decimal(-i); } else { assert IntText(i)[0..] == Decimal(i); }
  }

  lemma IntTextInjective(a: int, b: int)
    ensures IntText(a) == IntText(b) <==> a == b
  {
    if IntText(a) == IntText(b) {
      if a < 0 {
        assert IntText(a)[1..] == Decimal(-a) && IntText(b)[1..] == Decimal(-b);
        DecimalInjective(-a, -b);
      } else {
        DecimalInjective(a, b);
      }
    }
  }

  /* ----- strings.Join with a one-character separator ----- */

  predicate Free(s: string, c: char) { forall i :: 0 <= i < |s| ==> s[i] != c }

  function Join(parts: seq<string>, sep: char): string {
    if |parts| == 0 then ""
    else if |parts| == 1 then parts[0]
    else parts[0] + [sep] + Join(parts[1..], sep)
  }

  lemma JoinTwo(a: string, b: string, sep: char)
    ensures Join([a, b], sep) == a + [sep] + b
  {
    assert [a, b][1..] == [b];
  }

  /** The first separator marks where the first part ends. */
  lemma FirstPart(a: string, b: string, restA: string, restB: string, sep: char)
    requires Free(a, sep) && Free(b, sep)
    requires a + [sep] + restA == b + [sep] + restB
    ensures a == b && restA == restB
  {
    var s := a + [sep] + restA;
    assert s[|a|] == sep && s[|b|] == sep;
    assert forall i :: 0 <= i < |a| ==> s[i] == a[i] != sep;
    assert forall i :: 0 <= i < |b| ==> s[i] == b[i] != sep;
    assert a == s[..|a|] && b == s[..|b|];
    assert restA == s[|a| + 1..] && restB == s[|b| + 1..];
  }

  /** The last separator marks where the last part begins. */
  lemma LastPart(a: string, b: string, x: string, y: string, sep: char)
    requires a + [sep] + x == b + [sep] + y && Free(x, sep) && Free(y, sep)
    ensures a == b && x == y
  {
    var s := a + [sep] + x;
    assert s[|a|] == sep && s[|b|] == sep;
    assert forall i | |a| < i < |s| :: s[i] == x[i - |a| - 1];
    assert forall i | |b| < i < |s| :: s[i] == y[i - |b| - 1];
    assert |a| == |b|;
    assert a == s[..|a|] && b == s[..|b|] && x == s[|a| + 1..] && y == s[|b| + 1..];
  }

  lemma {:induction false} JoinLast(parts: seq<string>, last: string, sep: char)
    ensures Join(parts + [last], sep) == if parts == [] then last else Join(parts, sep) + [sep] + last
  {
    if parts == [] {
      assert parts + [last] == [last];
    } else {
      var all := parts + [last];
      assert all[0] == parts[0] && all[1..] == parts[1..] + [last];
      JoinLast(parts[1..], last, sep);
      if |parts| > 1 {
        assert parts[0] + [sep] + (Join(parts[1..], sep) + [sep] + last) == (parts[0] + [sep] + Join(parts[1..], sep)) + [sep] + last;
      }
    }
  }

  /** A joined list shows a separator exactly when it has several parts. */
  lemma JoinShowsSeparator(parts: seq<string>, sep: char)
    requires |parts| >= 1 && forall i :: 0 <= i < |parts| ==> Free(parts[i], sep)
    ensures Free(Join(parts, sep), sep) <==> |parts| == 1
  {
    if |parts| >= 2 {
      assert Join(parts, sep)[|parts[0]|] == sep;
    }
  }

  /** Joining is injective on non-empty lists of parts free of the separator. */
  lemma {:induction false} JoinInjective(xs: seq<string>, ys: seq<string>, sep: char)
    requires |xs| >= 1 && |ys| >= 1
    requires forall i :: 0 <= i < |xs| ==> Free(xs[i], sep)
    requires forall i :: 0 <= i < |ys| ==> Free(ys[i], sep)
    requires Join(xs, sep) == Join(ys, sep)
    ensures xs == ys
  {
    JoinShowsSeparator(xs, sep);
    JoinShowsSeparator(ys, sep);
    if |xs| >= 2 {
      FirstPart(xs[0], ys[0], Join(xs[1..], sep), Join(ys[1..], sep), sep);
      JoinInjective(xs[1..], ys[1..], sep);
      assert xs == [xs[0]] + xs[1..] && ys == [ys[0]] + ys[1..];
    }
  }

  /** Joining introduces no character other than the separator. */
  lemma {:induction false} JoinFree(parts: seq<string>, sep: char, c: char)
    requires c != sep && forall i :: 0 <= i < |parts| ==> Free(parts[i], c)
    ensures Free(Join(parts, sep), c)
  {
    if |parts| >= 2 {
      JoinFree(parts[1..], sep, c);
    }
  }
}
