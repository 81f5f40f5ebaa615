/** The store as the source writes it: one S3 call after another, through a client. */
module S3IaCStateStore {
  import opened Wrappers
  import opened ObjectStore
  import opened StateStore
  import opened StateListing

  class Store {
    const client: S3Client
    const prefix: string

    constructor (client: S3Client, prefix: string)
      ensures this.client == client
      ensures this.prefix == if prefix == "" then "iac-state/" else prefix
    {
      this.client := client;
      this.prefix := if prefix == "" then "iac-state/" else prefix;
    }

    method GetState(id: string) returns (reply: Reply)
      modifies client
      ensures (client.bucket, reply) == StateStore.GetState(prefix, old(client.bucket), id)
    {
      var out := client.GetObject(StateKey(prefix, id));
      match out {
        case Err(NotFound) => reply := Ok(None);
        case Err(_) => reply := Err(Unreachable);
        case Ok(Raw(_)) => reply := Err(Undecodable);
        case Ok(Json(st)) => reply := Ok(Some(st));
      }
    }

    method SaveState(state: Option<IaCState>) returns (reply: Reply)
      modifies client
      ensures (client.bucket, reply) == StateStore.SaveState(prefix, old(client.bucket), state)
    {
      if state.None? { return Err(NilState); }
      if state.value.resourceID == "" { return Err(EmptyResourceID); }
      if !state.value.encodable { return Err(Unencodable); }
      var put := client.PutObject(StateKey(prefix, state.value.resourceID), Json(state.value));
      if put.Err? { return Err(Unreachable); }
      return Ok(None);
    }

    method DeleteState(id: string) returns (reply: Reply)
      modifies client
      ensures (client.bucket, reply) == StateStore.Apply(prefix, old(client.bucket), Delete(id))
    {
      var key := StateKey(prefix, id);
      var head := client.HeadObject(key);
      if head == Err(NotFound) { return Err(StateNotFound); }
      if head.Err? { return Err(Unreachable); }
      var gone := client.DeleteObject(key);
      if gone.Err? { return Err(Unreachable); }
      return Ok(None);
    }

    method Lock(id: string, now: string) returns (reply: Reply)
      modifies client
      ensures (client.bucket, reply) == StateStore.Apply(prefix, old(client.bucket), Op.Lock(id, now))
    {
      var put := client.PutObjectIfNoneMatch(LockKey(prefix, id), Raw(now));
      if put == Err(PreconditionFailed) { return Err(AlreadyLocked); }
      if put.Err? { return Err(Unreachable); }
      return Ok(None);
    }

    method Unlock(id: string) returns (reply: Reply)
      modifies client
      ensures (client.bucket, reply) == StateStore.Apply(prefix, old(client.bucket), Op.Unlock(id))
    {
      var key := LockKey(prefix, id);
      var head := client.HeadObject(key);
      if head == Err(NotFound) { return Err(NotLocked); }
      if head.Err? { return Err(Unreachable); }
      var gone := client.DeleteObject(key);
      if gone.Err? { return Err(Unreachable); }
      return Ok(None);
    }

    /** The objects of one page that can be read and match, as ReadPage keeps them. */
    method ReadObjects(page: seq<string>, filter: Filter)
      returns (results: seq<IaCState>, ghost keys: seq<string>)
      modifies client
      ensures (client.bucket, keys) == ReadPage(old(client.bucket), page, filter)
      ensures client.bucket.objects == old(client.bucket.objects)
      ensures Decoded(client.bucket.objects, keys, results)
    {
      results, keys := [], [];
      ghost var start := client.bucket;
      var i := 0;
      AfterNothing(ReadPage(start, page, filter));
      assert page[0..] == page;
      while i < |page|
        invariant 0 <= i <= |page|
        invariant client.bucket.objects == start.objects
        invariant Decoded(start.objects, keys, results)
        invariant ReadPage(start, page, filter) == After(keys, ReadPage(client.bucket, page[i..], filter))
      {
        var key := page[i];
        assert page[i..][1..] == page[i + 1..];
        i := i + 1;
        if !Readable(key) { continue; }
        ghost var rest := ReadPage(client.bucket.Get(key).0, page[i..], filter);
        AfterBoth(keys, [key], rest);
        AfterNothing(rest);
        var got := client.GetObject(key);
        if got.Err? || got.value.Raw? { continue; }
        var keep := MatchesFilter(got.value.state, filter);
        if keep {
          results := results + [got.value.state];
          keys := keys + [key];
        }
      }
      assert keys + [] == keys;
    }

    /** Pages until the listing is no longer truncated, skipping what cannot be read. The
        states returned are those of the keys ReadPages keeps. */
    method ListStates(filter: Filter, pages: seq<seq<string>>)
      returns (r: Result<seq<IaCState>, StoreError>)
      requires pages != []
      modifies client
      ensures var (after, keys) := ReadPages(old(client.bucket), pages, filter);
              && client.bucket == after
              && (keys.None? ==> r == Err(Unreachable))
              && (keys.Some? ==> r.Ok? && Decoded(after.objects, keys.value, r.value))
    {
      var results: seq<IaCState> := [];
      ghost var found: seq<string> := [];
      ghost var start := client.bucket;
      var token := 0;
      PrependNothing(ReadPages(start, pages, filter));
      assert pages[0..] == pages;
      while true
        invariant 0 <= token < |pages|
        invariant client.bucket.objects == start.objects
        invariant Decoded(start.objects, found, results)
        invariant ReadPages(start, pages, filter) ==
                  Prepend(found, ReadPages(client.bucket, pages[token..], filter))
        decreases |pages| - token
      {
        ghost var b0 := client.bucket;
        var out := client.ListObjectsV2(pages, token);
        if out.Err? { return Err(Unreachable); }
        var more, keys := ReadObjects(out.value, filter);
        NextPage(b0, pages, token, filter);
        PrependBoth(found, keys, ReadPages(client.bucket, pages[token + 1..], filter));
        DecodedBoth(start.objects, found, results, keys, more);
        results := results + more;
        found := found + keys;
        if token + 1 == |pages| { assert pages[token + 1..] == []; break; }
        token := token + 1;
      }
      PrependLast(found, client.bucket);
      return Ok(results);
    }
  }

  ghost function After(found: seq<string>, r: (Bucket, seq<string>)): (Bucket, seq<string>) {
    (r.0, found + r.1)
  }

  lemma AfterNothing(r: (Bucket, seq<string>))
    ensures After([], r) == r
  {
    assert [] + r.1 == r.1;
  }

  lemma AfterBoth(xs: seq<string>, ys: seq<string>, r: (Bucket, seq<string>))
    ensures After(xs, After(ys, r)) == After(xs + ys, r)
  {
    assert xs + (ys + r.1) == xs + ys + r.1;
  }

  ghost function Prepend(found: seq<string>, r: (Bucket, Option<seq<string>>)): (Bucket, Option<seq<string>>) {
    (r.0, if r.1.None? then None else Some(found + r.1.value))
  }

  lemma PrependNothing(r: (Bucket, Option<seq<string>>))
    ensures Prepend([], r) == r
  {
    if r.1.Some? { assert [] + r.1.value == r.1.value; }
  }

  lemma PrependBoth(xs: seq<string>, ys: seq<string>, r: (Bucket, Option<seq<string>>))
    ensures Prepend(xs, Prepend(ys, r)) == Prepend(xs + ys, r)
  {
    if r.1.Some? { assert xs + (ys + r.1.value) == xs + ys + r.1.value; }
  }

  lemma PrependLast(found: seq<string>, b: Bucket)
    ensures Prepend(found, (b, Some([]))) == (b, Some(found))
  {
    assert found + [] == found;
  }

  lemma NextPage(b: Bucket, pages: seq<seq<string>>, token: nat, filter: Filter)
    requires token < |pages| && b.Answered()
    ensures var (b1, keys) := ReadPage(b.Next(b.objects), pages[token], filter);
            ReadPages(b, pages[token..], filter) == Prepend(keys, ReadPages(b1, pages[token + 1..], filter))
  {
    assert pages[token..][1..] == pages[token + 1..];
  }

  lemma DecodedBoth(objects: Objects, xs: seq<string>, xStates: seq<IaCState>, ys: seq<string>, yStates: seq<IaCState>)
    requires Decoded(objects, xs, xStates) && Decoded(objects, ys, yStates)
    ensures Decoded(objects, xs + ys, xStates + yStates)
  {
  }
}
