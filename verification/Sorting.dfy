/** Ordering of strings and of records by a string key: sort.Strings and sort.Slice. */
module Sorting {
  predicate Leq(a: string, b: string) {
    a == "" || (b != "" && (a[0] < b[0] || (a[0] == b[0] && Leq(a[1..], b[1..]))))
  }

  /** The order of strings: a prefix comes first, and otherwise the first difference decides. */
  ghost predicate Before(a: string, b: string) {
    a <= b || exists i: nat :: i < |a| && i < |b| && a[..i] == b[..i] && a[i] < b[i]
  }

  lemma {:induction false} LeqIsOrder(a: string, b: string)
    ensures Leq(a, b) <==> Before(a, b)
  {
    if a != "" && b != "" && a[0] == b[0] {
      LeqIsOrder(a[1..], b[1..]);
      assert a == [a[0]] + a[1..] && b == [b[0]] + b[1..];
      BeforeTail(a, b);
    } else if a != "" && b != "" {
      assert a[0] < b[0] ==> a[..0] == b[..0];
    }
  }

  lemma BeforeTail(a: string, b: string)
    requires a != "" && b != "" && a[0] == b[0]
    ensures Before(a, b) <==> Before(a[1..], b[1..])
  {
    var (s, t) := (a[1..], b[1..]);
    forall i: nat | i < |s| && i < |t| && s[..i] == t[..i] && s[i] < t[i] ensures Before(a, b) {
      assert a[..i + 1] == [a[0]] + s[..i] && b[..i + 1] == [b[0]] + t[..i];
      assert a[i + 1] < b[i + 1];
    }
    forall i: nat | i < |a| && i < |b| && a[..i] == b[..i] && a[i] < b[i] ensures Before(s, t) {
      assert i > 0;
      var j: nat := i - 1;
      assert s[..j] == a[..i][1..] && t[..j] == b[..i][1..];
      assert s[j] < t[j];
    }
  }

  lemma {:induction false} LeqTotal(a: string, b: string)
    ensures Leq(a, b) || Leq(b, a)
  {
    if a != "" && b != "" && a[0] == b[0] {
      LeqTotal(a[1..], b[1..]);
    }
  }

  lemma {:induction false} LeqAntisymmetric(a: string, b: string)
    requires Leq(a, b) && Leq(b, a)
    ensures a == b
  {
    if a != "" {
      LeqAntisymmetric(a[1..], b[1..]);
      assert a == [a[0]] + a[1..] && b == [b[0]] + b[1..];
    }
  }

  lemma {:induction false} LeqTransitive(a: string, b: string, c: string)
    requires Leq(a, b) && Leq(b, c)
    ensures Leq(a, c)
  {
    if a != "" && a[0] == b[0] && b[0] == c[0] {
      LeqTransitive(a[1..], b[1..], c[1..]);
    }
  }

  function Insert<T>(x: T, xs: seq<T>, key: T -> string): seq<T> {
    if xs == [] then [x]
    else if Leq(key(x), key(xs[0])) then [x] + xs
    else [xs[0]] + Insert(x, xs[1..], key)
  }

  function Sort<T>(xs: seq<T>, key: T -> string): seq<T> {
    if xs == [] then [] else Insert(xs[0], Sort(xs[1..], key), key)
  }

  ghost predicate SortedBy<T>(xs: seq<T>, key: T -> string) {
    forall i, j :: 0 <= i < j < |xs| ==> Leq(key(xs[i]), key(xs[j]))
  }

  lemma {:induction false} InsertKeeps<T>(x: T, xs: seq<T>, key: T -> string)
    ensures multiset(Insert(x, xs, key)) == multiset(xs) + multiset{x}
    ensures |Insert(x, xs, key)| == |xs| + 1
  {
    if xs == [] {
    } else if Leq(key(x), key(xs[0])) {
    } else {
      InsertKeeps(x, xs[1..], key);
      assert xs == [xs[0]] + xs[1..];
    }
  }

  lemma {:induction false} InsertSorted<T>(x: T, xs: seq<T>, key: T -> string)
    requires SortedBy(xs, key)
    ensures SortedBy(Insert(x, xs, key), key)
  {
    if xs == [] {
    } else if Leq(key(x), key(xs[0])) {
      forall j | 0 <= j < |xs| ensures Leq(key(x), key(xs[j])) {
        if j > 0 { LeqTransitive(key(x), key(xs[0]), key(xs[j])); }
      }
    } else {
      LeqTotal(key(x), key(xs[0]));
      var tail := Insert(x, xs[1..], key);
      InsertSorted(x, xs[1..], key);
      InsertKeeps(x, xs[1..], key);
      forall j | 0 <= j < |tail| ensures Leq(key(xs[0]), key(tail[j])) {
        assert tail[j] in multiset(tail);
        if tail[j] != x {
          assert tail[j] in xs[1..];
        }
      }
    }
  }

  /** Sorting permutes its input into key order. */
  lemma {:induction false} SortCorrect<T>(xs: seq<T>, key: T -> string)
    ensures multiset(Sort(xs, key)) == multiset(xs)
    ensures SortedBy(Sort(xs, key), key)
    ensures |Sort(xs, key)| == |xs|
  {
    if xs != [] {
      var rest := Sort(xs[1..], key);
      SortCorrect(xs[1..], key);
      InsertKeeps(xs[0], rest, key);
      InsertSorted(xs[0], rest, key);
      assert xs == [xs[0]] + xs[1..];
      assert Sort(xs, key) == Insert(xs[0], rest, key);
    }
  }

  ghost predicate KeysDecide<T(!new)>(xs: seq<T>, key: T -> string) {
    forall x, y :: x in xs && y in xs && key(x) == key(y) ==> x == y
  }

  /** Which of two elements goes in first does not show. */
  lemma {:induction false} InsertsCommute<T>(x: T, y: T, s: seq<T>, key: T -> string)
    requires key(x) == key(y) ==> x == y
    ensures Insert(x, Insert(y, s, key), key) == Insert(y, Insert(x, s, key), key)
  {
    LeqTotal(key(x), key(y));
    if Leq(key(x), key(y)) && Leq(key(y), key(x)) {
      LeqAntisymmetric(key(x), key(y));
    } else if Leq(key(x), key(y)) {
      LowerFirst(x, y, s, key);
    } else {
      LowerFirst(y, x, s, key);
    }
  }

  lemma {:induction false} LowerFirst<T>(lo: T, hi: T, s: seq<T>, key: T -> string)
    requires Leq(key(lo), key(hi)) && !Leq(key(hi), key(lo))
    ensures Insert(lo, Insert(hi, s, key), key) == Insert(hi, Insert(lo, s, key), key)
  {
    if s == [] {
      assert [lo][1..] == [];
    } else if Leq(key(hi), key(s[0])) {
      LeqTransitive(key(lo), key(hi), key(s[0]));
      assert ([lo] + s)[1..] == s;
    } else if Leq(key(lo), key(s[0])) {
      assert ([lo] + s)[1..] == s;
    } else {
      LowerFirst(lo, hi, s[1..], key);
      assert ([s[0]] + Insert(hi, s[1..], key))[1..] == Insert(hi, s[1..], key);
      assert ([s[0]] + Insert(lo, s[1..], key))[1..] == Insert(lo, s[1..], key);
    }
  }

  function Dropped<T>(xs: seq<T>, j: nat): seq<T>
    requires j < |xs|
  {
    xs[..j] + xs[j + 1..]
  }

  lemma DroppedCount<T>(xs: seq<T>, j: nat)
    requires j < |xs|
    ensures multiset(xs) == multiset(Dropped(xs, j)) + multiset{xs[j]}
    ensures forall x | x in Dropped(xs, j) :: x in xs
  {
    assert xs == xs[..j] + [xs[j]] + xs[j + 1..];
  }

  /** Any one element may be kept back and inserted last. */
  lemma {:induction false} InsertLast<T(!new)>(xs: seq<T>, j: nat, key: T -> string)
    requires j < |xs| && KeysDecide(xs, key)
    ensures Sort(xs, key) == Insert(xs[j], Sort(Dropped(xs, j), key), key)
  {
    if j == 0 {
      assert Dropped(xs, 0) == xs[1..];
    } else {
      InsertLast(xs[1..], j - 1, key);
      assert Dropped(xs, j) == [xs[0]] + Dropped(xs[1..], j - 1);
      assert Dropped(xs, j)[1..] == Dropped(xs[1..], j - 1);
      InsertsCommute(xs[0], xs[j], Sort(Dropped(xs[1..], j - 1), key), key);
    }
  }

  lemma SameButHead<T>(xs: seq<T>, ys: seq<T>) returns (j: nat)
    requires multiset(xs) == multiset(ys) && xs != []
    ensures j < |ys| && ys[j] == xs[0] && multiset(xs[1..]) == multiset(Dropped(ys, j))
  {
    assert xs[0] in multiset(ys);
    j :| 0 <= j < |ys| && ys[j] == xs[0];
    DroppedCount(ys, j);
    assert xs == [xs[0]] + xs[1..];
    assert multiset(xs[1..]) == multiset(xs) - multiset{xs[0]};
  }

  lemma NoneLeft<T>(ys: seq<T>)
    requires multiset(ys) == multiset([])
    ensures ys == []
  {
    assert |multiset(ys)| == 0;
  }

  /** Sorting forgets the order the elements came in. */
  lemma {:induction false} SortIgnoresOrder<T(!new)>(xs: seq<T>, ys: seq<T>, key: T -> string)
    requires multiset(xs) == multiset(ys) && KeysDecide(xs, key)
    ensures Sort(xs, key) == Sort(ys, key)
    decreases |ys|
  {
    if ys == [] {
      NoneLeft(xs);
    } else {
      var j := SameButHead(ys, xs);
      DroppedCount(xs, j);
      SortIgnoresOrder(Dropped(xs, j), ys[1..], key);
      InsertLast(xs, j, key);
    }
  }
}
