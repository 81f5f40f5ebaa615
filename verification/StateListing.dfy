/** Listing: which states a filter keeps, and what a paged listing returns. */
module StateListing {
  import opened Wrappers
  import opened ObjectStore
  import opened StateStore
  import Text

  type Filter = map<string, string>

  /** The three filter keys that are honoured. */
  predicate Matches(st: IaCState, filter: Filter) {
    && ("resource_type" in filter ==> st.resourceType == filter["resource_type"])
    && ("provider" in filter ==> st.provider == filter["provider"])
    && ("status" in filter ==> st.status == filter["status"])
  }

  /** A state's fields under the names a filter uses. */
  function Honoured(st: IaCState): map<string, string> {
    map["resource_type" := st.resourceType, "provider" := st.provider, "status" := st.status]
  }

  /** A filter keeps a state exactly if the two agree wherever both say something. */
  lemma MatchesIff(st: IaCState, filter: Filter)
    ensures Matches(st, filter) <==> forall k | k in filter && k in Honoured(st) :: filter[k] == Honoured(st)[k]
  {
    var fields := Honoured(st);
    assert "resource_type" in fields && "provider" in fields && "status" in fields;
  }

  /** Walks the filter entries in any order and stops at the first mismatch. */
  method MatchesFilter(st: IaCState, filter: Filter) returns (ok: bool)
    ensures ok <==> Matches(st, filter)
  {
    var rest := filter.Keys;
    while rest != {}
      invariant rest <= filter.Keys
      invariant Matches(st, map k | k in filter && k !in rest :: filter[k])
      decreases rest
    {
      var k :| k in rest;
      match k {
        case "resource_type" => if st.resourceType != filter[k] { return false; }
        case "provider" => if st.provider != filter[k] { return false; }
        case "status" => if st.status != filter[k] { return false; }
        case _ =>
      }
      rest := rest - {k};
    }
    return true;
  }

  /** The listing looks only at keys like these. */
  predicate Readable(key: string) {
    !Text.HasSuffix(key, ".lock") && Text.HasSuffix(key, ".json")
  }

  predicate Kept(objects: Objects, key: string, filter: Filter) {
    Readable(key) && key in objects && objects[key].Json? && Matches(objects[key].state, filter)
  }

  /** One page of keys: each readable key is fetched, and kept if it decodes and
      matches. Unanswered fetches are skipped. */
  function ReadPage(b: Bucket, page: seq<string>, filter: Filter): (Bucket, seq<string>)
    decreases |page|
  {
    if page == [] then (b, [])
    else if !Readable(page[0]) then ReadPage(b, page[1..], filter)
    else
      var (b1, got) := b.Get(page[0]);
      var (b2, rest) := ReadPage(b1, page[1..], filter);
      (b2, (if got.Ok? && Kept(b.objects, page[0], filter) then [page[0]] else []) + rest)
  }

  /** Page after page until the last, giving up if a page cannot be listed. */
  function ReadPages(b: Bucket, pages: seq<seq<string>>, filter: Filter): (Bucket, Option<seq<string>>)
    decreases |pages|
  {
    if pages == [] then (b, Some([]))
    else if !b.Answered() then (b.Next(b.objects), None)
    else
      var (b1, keys) := ReadPage(b.Next(b.objects), pages[0], filter);
      var (b2, rest) := ReadPages(b1, pages[1..], filter);
      (b2, if rest.None? then None else Some(keys + rest.value))
  }

  /** The decoded states of a list of keys. */
  predicate Decoded(objects: Objects, keys: seq<string>, states: seq<IaCState>) {
    |states| == |keys|
    && forall i :: 0 <= i < |keys| ==> keys[i] in objects && objects[keys[i]] == Json(states[i])
  }

  function Flatten(pages: seq<seq<string>>): seq<string> {
    if pages == [] then [] else pages[0] + Flatten(pages[1..])
  }

  function Sieve<T>(xs: seq<T>, keep: T -> bool): seq<T> {
    if xs == [] then []
    else (if keep(xs[0]) then [xs[0]] else []) + Sieve(xs[1..], keep)
  }

  function KeptBy(objects: Objects, filter: Filter): string -> bool {
    key => Kept(objects, key, filter)
  }

  /** The keys a filter selects, in listing order. */
  function Select(objects: Objects, keys: seq<string>, filter: Filter): seq<string> {
    Sieve(keys, KeptBy(objects, filter))
  }

  /** How S3 lists: any split into pages of the prefixed keys, each listed once. */
  ghost predicate IsListing(pages: seq<seq<string>>, prefix: string, objects: Objects) {
    var keys := Flatten(pages);
    && (forall i, j :: 0 <= i < j < |keys| ==> keys[i] != keys[j])
    && (forall k :: k in keys <==> k in objects && Text.HasPrefix(k, prefix))
  }

  ghost predicate Distinct(keys: seq<string>) {
    forall i, j :: 0 <= i < j < |keys| ==> keys[i] != keys[j]
  }

  lemma {:induction false} SieveAppend<T>(xs: seq<T>, ys: seq<T>, keep: T -> bool)
    ensures Sieve(xs + ys, keep) == Sieve(xs, keep) + Sieve(ys, keep)
  {
    if xs == [] {
      assert xs + ys == ys;
    } else {
      var head := if keep(xs[0]) then [xs[0]] else [];
      SieveAppend(xs[1..], ys, keep);
      assert (xs + ys)[1..] == xs[1..] + ys;
      assert head + (Sieve(xs[1..], keep) + Sieve(ys, keep)) == (head + Sieve(xs[1..], keep)) + Sieve(ys, keep);
    }
  }

  lemma {:induction false} SieveExact(xs: seq<string>, keep: string -> bool)
    requires Distinct(xs)
    ensures Distinct(Sieve(xs, keep))
    ensures forall x :: x in Sieve(xs, keep) <==> x in xs && keep(x)
  {
    if xs != [] {
      SieveExact(xs[1..], keep);
      assert xs == [xs[0]] + xs[1..];
      assert xs[0] !in xs[1..];
    }
  }

  lemma {:induction false} SieveTwice<T(!new)>(xs: seq<T>, p: T -> bool, q: T -> bool, both: T -> bool)
    requires forall x :: both(x) <==> p(x) && q(x)
    ensures Sieve(xs, both) == Sieve(Sieve(xs, p), q)
  {
    if xs != [] {
      SieveTwice(xs[1..], p, q, both);
      assert both(xs[0]) <==> p(xs[0]) && q(xs[0]);
      var head := if p(xs[0]) then [xs[0]] else [];
      SieveAppend(head, Sieve(xs[1..], p), q);
      assert Sieve([xs[0]], q) == if q(xs[0]) then [xs[0]] else [];
    }
  }

  /** Whatever goes unanswered, reading a page changes no object and keeps only keys of
      the page that the filter selects, each once. */
  lemma {:induction false} PageSound(b: Bucket, page: seq<string>, filter: Filter)
    ensures var (b', keys) := ReadPage(b, page, filter);
            && b'.objects == b.objects && b'.answers == b.answers && b'.calls >= b.calls
            && (forall k :: k in keys ==> k in page && Kept(b.objects, k, filter))
            && (Distinct(page) ==> Distinct(keys))
    decreases |page|
  {
    if page != [] {
      PageSound(if Readable(page[0]) then b.Get(page[0]).0 else b, page[1..], filter);
      assert page == [page[0]] + page[1..];
      if Distinct(page) { assert page[0] !in page[1..]; }
    }
  }

  /** With every call answered it keeps all of them. */
  lemma {:induction false} PageComplete(b: Bucket, page: seq<string>, filter: Filter)
    requires forall k :: k in page ==> k in b.objects
    requires AllAnswered(b, ReadPage(b, page, filter).0)
    ensures ReadPage(b, page, filter).1 == Select(b.objects, page, filter)
    decreases |page|
  {
    if page != [] {
      var b1 := if Readable(page[0]) then b.Get(page[0]).0 else b;
      PageSound(b1, page[1..], filter);
      assert page[0] in page;
      PageComplete(b1, page[1..], filter);
    }
  }

  lemma {:induction false} PagesSound(b: Bucket, pages: seq<seq<string>>, filter: Filter)
    ensures var (b', keys) := ReadPages(b, pages, filter);
            && b'.objects == b.objects && b'.answers == b.answers && b'.calls >= b.calls
            && (keys.Some? ==>
                  && (forall k :: k in keys.value ==> k in Flatten(pages) && Kept(b.objects, k, filter))
                  && (Distinct(Flatten(pages)) ==> Distinct(keys.value)))
    decreases |pages|
  {
    if pages != [] && b.Answered() {
      var b0 := b.Next(b.objects);
      PageSound(b0, pages[0], filter);
      var (b1, keys) := ReadPage(b0, pages[0], filter);
      PagesSound(b1, pages[1..], filter);
      var rest := ReadPages(b1, pages[1..], filter).1;
      if rest.Some? && Distinct(Flatten(pages)) {
        SplitDistinct(pages[0], Flatten(pages[1..]));
        forall i, j | 0 <= i < |keys| && 0 <= j < |rest.value| ensures keys[i] != rest.value[j] {
          assert keys[i] in pages[0] && rest.value[j] in Flatten(pages[1..]);
        }
      }
    }
  }

  lemma SplitDistinct(xs: seq<string>, ys: seq<string>)
    requires Distinct(xs + ys)
    ensures Distinct(xs) && Distinct(ys)
    ensures forall k :: k in xs ==> k !in ys
  {
    var all := xs + ys;
    forall i, j | 0 <= i < |xs| && 0 <= j < |ys| ensures xs[i] != ys[j] {
      assert all[i] == xs[i] && all[|xs| + j] == ys[j];
    }
    forall i, j | 0 <= i < j < |ys| ensures ys[i] != ys[j] {
      assert all[|xs| + i] == ys[i] && all[|xs| + j] == ys[j];
    }
    forall i, j | 0 <= i < j < |xs| ensures xs[i] != xs[j] {
      assert all[i] == xs[i] && all[j] == xs[j];
    }
  }

  lemma {:induction false} PagesComplete(b: Bucket, pages: seq<seq<string>>, filter: Filter)
    requires forall k :: k in Flatten(pages) ==> k in b.objects
    requires AllAnswered(b, ReadPages(b, pages, filter).0)
    ensures ReadPages(b, pages, filter).1 == Some(Select(b.objects, Flatten(pages), filter))
    decreases |pages|
  {
    if pages != [] {
      var b0 := b.Next(b.objects);
      var b1 := ReadPage(b0, pages[0], filter).0;
      var b' := ReadPages(b, pages, filter).0;
      PageSound(b0, pages[0], filter);
      PagesSound(b1, pages[1..], filter);
      assert b'.calls > b.calls && b.answers(b.calls);
      PageComplete(b0, pages[0], filter);
      PagesComplete(b1, pages[1..], filter);
      SieveAppend(pages[0], Flatten(pages[1..]), KeptBy(b.objects, filter));
    }
  }

  /** For any paging of the prefix listing: what is returned are decodable, matching states
      under the prefix, each once, and never a lock object; when every call is answered it
      is all of them, whatever the page boundaries. */
  lemma ListStatesExact(b: Bucket, pages: seq<seq<string>>, prefix: string, filter: Filter)
    requires IsListing(pages, prefix, b.objects)
    ensures var (b', keys) := ReadPages(b, pages, filter);
            && b'.objects == b.objects
            && (keys.Some? ==>
                  && Distinct(keys.value)
                  && forall k :: k in keys.value ==>
                       Text.HasPrefix(k, prefix) && Kept(b.objects, k, filter) && forall id :: k != LockKey(prefix, id))
            && (AllAnswered(b, b') ==>
                  && keys.Some?
                  && forall k :: k in keys.value <==>
                       k in b.objects && Text.HasPrefix(k, prefix) && Kept(b.objects, k, filter))
  {
    PagesSound(b, pages, filter);
    var (b', keys) := ReadPages(b, pages, filter);
    if keys.Some? {
      forall k, id | k in keys.value ensures k != LockKey(prefix, id) {
        assert Readable(k);
        Text.SuffixOfConcat(prefix + SanitizeID(id), ".lock");
      }
    }
    if AllAnswered(b, b') {
      PagesComplete(b, pages, filter);
      SieveExact(Flatten(pages), KeptBy(b.objects, filter));
    }
  }

  /* ----- the calls of a listing ----- */

  datatype Fetch = ListPage | GetKey(key: string)

  function PageFetches(page: seq<string>): seq<Fetch> {
    if page == [] then [] else (if Readable(page[0]) then [GetKey(page[0])] else []) + PageFetches(page[1..])
  }

  /** Each page is listed and then its readable keys are fetched, in order. */
  function Fetches(pages: seq<seq<string>>): seq<Fetch> {
    if pages == [] then [] else [ListPage] + PageFetches(pages[0]) + Fetches(pages[1..])
  }

  /** What a fetch with call number n brings. */
  function Brought(answers: nat -> bool, objects: Objects, n: nat, fetch: Fetch, filter: Filter): seq<string> {
    if fetch.GetKey? && answers(n) && Kept(objects, fetch.key, filter) then [fetch.key] else []
  }

  /** What fetches from call number n on bring, each on its own. */
  function Gathered(answers: nat -> bool, objects: Objects, n: nat, fetches: seq<Fetch>, filter: Filter): seq<string>
    decreases |fetches|
  {
    if fetches == [] then []
    else Brought(answers, objects, n, fetches[0], filter) + Gathered(answers, objects, n + 1, fetches[1..], filter)
  }

  lemma GatheredCons(answers: nat -> bool, objects: Objects, n: nat, first: Fetch, rest: seq<Fetch>, filter: Filter)
    ensures Gathered(answers, objects, n, [first] + rest, filter) ==
              Brought(answers, objects, n, first, filter) + Gathered(answers, objects, n + 1, rest, filter)
  {
    assert ([first] + rest)[1..] == rest;
  }

  lemma RegroupKeys(a: seq<string>, b: seq<string>, c: seq<string>)
    ensures a + (b + c) == (a + b) + c
  {
  }

  lemma {:induction false} GatheredAppend(answers: nat -> bool, objects: Objects, n: nat, xs: seq<Fetch>, ys: seq<Fetch>,
                                          filter: Filter)
    ensures Gathered(answers, objects, n, xs + ys, filter) ==
              Gathered(answers, objects, n, xs, filter) + Gathered(answers, objects, n + |xs|, ys, filter)
    decreases |xs|
  {
    if xs == [] {
      assert xs + ys == ys;
    } else {
      assert xs + ys == [xs[0]] + (xs[1..] + ys) && xs == [xs[0]] + xs[1..];
      GatheredCons(answers, objects, n, xs[0], xs[1..] + ys, filter);
      GatheredAppend(answers, objects, n + 1, xs[1..], ys, filter);
      RegroupKeys(Brought(answers, objects, n, xs[0], filter), Gathered(answers, objects, n + 1, xs[1..], filter),
                  Gathered(answers, objects, n + |xs|, ys, filter));
    }
  }

  /** A readable key is fetched by one call and brings what that call brings. */
  lemma FirstFetch(b: Bucket, page: seq<string>, filter: Filter)
    requires page != [] && Readable(page[0])
    ensures var (b', rest) := ReadPage(Bucket(b.answers, b.calls + 1, b.objects), page[1..], filter);
            ReadPage(b, page, filter) == (b', Brought(b.answers, b.objects, b.calls, GetKey(page[0]), filter) + rest)
    ensures PageFetches(page) == [GetKey(page[0])] + PageFetches(page[1..])
  {
  }

  lemma NoFetch(b: Bucket, page: seq<string>, filter: Filter)
    requires page != [] && !Readable(page[0])
    ensures ReadPage(b, page, filter) == ReadPage(b, page[1..], filter)
    ensures PageFetches(page) == PageFetches(page[1..])
  {
  }

  lemma {:induction false} PageCalls(b: Bucket, page: seq<string>, filter: Filter)
    ensures var (b', keys) := ReadPage(b, page, filter); var fetches := PageFetches(page);
            b' == Bucket(b.answers, b.calls + |fetches|, b.objects)
            && keys == Gathered(b.answers, b.objects, b.calls, fetches, filter)
    decreases |page|
  {
    if page != [] {
      if Readable(page[0]) {
        FirstFetch(b, page, filter);
        PageCalls(Bucket(b.answers, b.calls + 1, b.objects), page[1..], filter);
        GatheredCons(b.answers, b.objects, b.calls, GetKey(page[0]), PageFetches(page[1..]), filter);
      } else {
        NoFetch(b, page, filter);
        PageCalls(b, page[1..], filter);
      }
    }
  }

  /** Some page's listing, among calls made from number n on, goes unanswered. */
  ghost predicate Unlisted(answers: nat -> bool, n: nat, fetches: seq<Fetch>) {
    exists i: nat :: i < |fetches| && fetches[i] == ListPage && !answers(n + i)
  }

  lemma {:induction false} PageHasNoListing(page: seq<string>)
    ensures forall f | f in PageFetches(page) :: f.GetKey?
  {
    if page != [] { PageHasNoListing(page[1..]); }
  }

  lemma UnlistedFirst(answers: nat -> bool, n: nat, page: seq<Fetch>, rest: seq<Fetch>)
    requires forall f | f in page :: f.GetKey?
    ensures Unlisted(answers, n, [ListPage] + page + rest) <==> !answers(n) || Unlisted(answers, n + 1 + |page|, rest)
  {
    var all := [ListPage] + page + rest;
    if !answers(n) { assert all[0] == ListPage && !answers(n + 0); }
    forall i: nat | i < |rest| && rest[i] == ListPage && !answers(n + 1 + |page| + i) ensures Unlisted(answers, n, all) {
      assert all[1 + |page| + i] == rest[i] && !answers(n + (1 + |page| + i));
    }
    forall i: nat | 1 <= i <= |page| ensures all[i] != ListPage { assert all[i] == page[i - 1] && page[i - 1] in page; }
    forall i: nat | |page| < i < |all| && all[i] == ListPage && !answers(n + i)
      ensures Unlisted(answers, n + 1 + |page|, rest)
    {
      var j: nat := i - 1 - |page|;
      assert rest[j] == all[i] && n + i == (n + 1 + |page|) + j;
    }
  }

  lemma GatheredAfterListing(answers: nat -> bool, objects: Objects, n: nat, page: seq<Fetch>, rest: seq<Fetch>,
                             filter: Filter)
    ensures Gathered(answers, objects, n, [ListPage] + page + rest, filter) ==
              Gathered(answers, objects, n + 1, page, filter) + Gathered(answers, objects, n + 1 + |page|, rest, filter)
  {
    assert [ListPage] + page + rest == [ListPage] + (page + rest);
    GatheredCons(answers, objects, n, ListPage, page + rest, filter);
    GatheredAppend(answers, objects, n + 1, page, rest, filter);
  }

  /** A listing fails exactly if the listing of some page goes unanswered, and otherwise makes
      all its calls; what it returns are the keys whose own fetch was answered and that the
      filter keeps, whatever happened to the others. */
  lemma {:induction false} ListingCalls(b: Bucket, pages: seq<seq<string>>, filter: Filter)
    ensures var (b', keys) := ReadPages(b, pages, filter); var fetches := Fetches(pages);
            && (keys.None? <==> Unlisted(b.answers, b.calls, fetches))
            && (keys.Some? ==>
                  && b' == Bucket(b.answers, b.calls + |fetches|, b.objects)
                  && keys.value == Gathered(b.answers, b.objects, b.calls, fetches, filter))
    decreases |pages|
  {
    if pages != [] {
      FirstFetches(b.answers, b.objects, b.calls, pages, filter);
      if b.Answered() {
        FirstPage(b, pages, filter);
        ListingCalls(Bucket(b.answers, b.calls + 1 + |PageFetches(pages[0])|, b.objects), pages[1..], filter);
      }
    }
  }

  lemma FirstFetches(answers: nat -> bool, objects: Objects, n: nat, pages: seq<seq<string>>, filter: Filter)
    requires pages != []
    ensures var (all, page, rest) := (Fetches(pages), PageFetches(pages[0]), Fetches(pages[1..]));
            && |all| == 1 + |page| + |rest|
            && (Unlisted(answers, n, all) <==> !answers(n) || Unlisted(answers, n + 1 + |page|, rest))
            && Gathered(answers, objects, n, all, filter) ==
                 Gathered(answers, objects, n + 1, page, filter) + Gathered(answers, objects, n + 1 + |page|, rest, filter)
  {
    var (page, rest) := (PageFetches(pages[0]), Fetches(pages[1..]));
    PageHasNoListing(pages[0]);
    UnlistedFirst(answers, n, page, rest);
    GatheredAfterListing(answers, objects, n, page, rest, filter);
  }

  lemma FirstPage(b: Bucket, pages: seq<seq<string>>, filter: Filter)
    requires pages != [] && b.Answered()
    ensures var page := PageFetches(pages[0]);
            var (b', rest) := ReadPages(Bucket(b.answers, b.calls + 1 + |page|, b.objects), pages[1..], filter);
            ReadPages(b, pages, filter) ==
              (b', if rest.None? then None else Some(Gathered(b.answers, b.objects, b.calls + 1, page, filter) + rest.value))
  {
    PageCalls(b.Next(b.objects), pages[0], filter);
  }

  predicate Compatible(f: Filter, g: Filter) {
    forall k :: k in f && k in g ==> f[k] == g[k]
  }

  /** Selecting by the union of two compatible filters is selecting by one and then by the
      other, and entries under unknown keys make no difference. */
  lemma FilterTwice(objects: Objects, keys: seq<string>, f: Filter, g: Filter, extra: Filter)
    requires Compatible(f, g)
    requires forall k :: k in extra ==> k !in {"resource_type", "provider", "status"}
    ensures Select(objects, keys, f + g + extra) == Select(objects, Select(objects, keys, f), g)
  {
    forall key ensures Kept(objects, key, f + g + extra) <==> Kept(objects, key, f) && Kept(objects, key, g) {
    }
    SieveTwice(keys, KeptBy(objects, f), KeptBy(objects, g), KeptBy(objects, f + g + extra));
  }
}
