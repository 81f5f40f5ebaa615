/** What a listing shows of the states that were saved. */
module SavedStates {
  import opened Wrappers
  import opened ObjectStore
  import opened StateStore
  import opened StateListing
  import Text

  /** Nothing is stored under the prefix. */
  predicate Unused(prefix: string, objects: Objects) {
    forall k | k in objects :: !Text.HasPrefix(k, prefix)
  }

  ghost predicate IsKeyOf(prefix: string, k: string, x: string) { k == StateKeyFor(prefix, x) || k == LockKeyFor(prefix, x) }

  /** What is stored under the prefix is some name's state or lock. */
  ghost predicate OnlyOurs(prefix: string, objects: Objects) {
    forall k | k in objects && Text.HasPrefix(k, prefix) :: exists x :: IsKeyOf(prefix, k, x)
  }

  lemma KeysHavePrefix(prefix: string, x: string)
    ensures Text.HasPrefix(StateKeyFor(prefix, x), prefix) && Text.HasPrefix(LockKeyFor(prefix, x), prefix)
  {
  }

  lemma UnusedHoldsNothing(prefix: string, objects: Objects)
    requires Unused(prefix, objects)
    ensures Holds(prefix, objects, Table(map[], {}))
  {
    forall x: string
      ensures StateKeyFor(prefix, x) !in objects && LockKeyFor(prefix, x) !in objects
    {
      KeysHavePrefix(prefix, x);
    }
  }

  lemma ApplyKeepsOurs(prefix: string, b: Bucket, op: Op)
    requires OnlyOurs(prefix, b.objects)
    ensures OnlyOurs(prefix, Apply(prefix, b, op).0.objects)
  {
    var name := NameOf(op);
    var after := Apply(prefix, b, op).0.objects;
    OthersUntouched(prefix, b, Table(map[], {}), op);
    forall k | k in after && Text.HasPrefix(k, prefix) ensures exists x :: IsKeyOf(prefix, k, x) {
      if k == StateKeyFor(prefix, name) || k == LockKeyFor(prefix, name) {
        assert IsKeyOf(prefix, k, name);
      } else {
        assert Lookup(after, k) == Lookup(b.objects, k);
      }
    }
  }

  lemma {:induction false} RunKeepsOurs(prefix: string, b: Bucket, ops: seq<Op>)
    requires OnlyOurs(prefix, b.objects)
    ensures OnlyOurs(prefix, Run(prefix, b, ops).0.objects)
  {
    if ops != [] {
      RunKeepsOurs(prefix, b, ops[..|ops| - 1]);
      ApplyKeepsOurs(prefix, Run(prefix, b, ops[..|ops| - 1]).0, ops[|ops| - 1]);
    }
  }

  /** The name in a state's key. */
  function NameIn(prefix: string, key: string): string {
    if |key| >= |prefix| + 5 then key[|prefix|..|key| - 5] else ""
  }

  lemma NameInKey(prefix: string, x: string)
    ensures NameIn(prefix, StateKeyFor(prefix, x)) == x
  {
  }

  lemma StateKeysAreReadable(prefix: string, x: string)
    ensures Readable(StateKeyFor(prefix, x)) && !Readable(LockKeyFor(prefix, x))
  {
    Text.SuffixOfConcat(prefix + x, ".json");
    Text.SuffixOfConcat(prefix + x, ".lock");
    Text.SuffixesClash(StateKeyFor(prefix, x), ".json", ".lock", 1);
  }

  /** A readable key under the prefix is the state key of the name in it. */
  lemma ReadableIsState(prefix: string, objects: Objects, k: string)
    requires OnlyOurs(prefix, objects) && k in objects && Text.HasPrefix(k, prefix) && Readable(k)
    ensures k == StateKeyFor(prefix, NameIn(prefix, k))
  {
    var x :| IsKeyOf(prefix, k, x);
    StateKeysAreReadable(prefix, x);
    NameInKey(prefix, x);
  }

  /** What a listing keeps, name by name. */
  lemma KeptIff(prefix: string, b: Bucket, ops: seq<Op>, filter: Filter, name: string)
    requires Unused(prefix, b.objects)
    ensures var (b', replies) := Run(prefix, b, ops); var last := LastSaved(ops, replies, name);
            && (Kept(b'.objects, StateKeyFor(prefix, name), filter) <==> last.Some? && Matches(last.value, filter))
            && (last.Some? ==> Lookup(b'.objects, StateKeyFor(prefix, name)) == Some(Json(last.value)))
  {
    UnusedHoldsNothing(prefix, b.objects);
    BucketHoldsLastSaved(prefix, b, ops, name);
    StateKeysAreReadable(prefix, name);
  }

  /** After any run on a store that held nothing, a complete listing whose calls are answered
      returns, name by name and each once, what was last saved under the name and not deleted
      since, if it matches the filter. */
  lemma SavedStatesAreListed(prefix: string, b: Bucket, ops: seq<Op>, pages: seq<seq<string>>, filter: Filter,
                             states: seq<IaCState>)
    returns (names: seq<string>)
    requires Unused(prefix, b.objects)
    requires var b' := Run(prefix, b, ops).0; var (after, keys) := ReadPages(b', pages, filter);
             && IsListing(pages, prefix, b'.objects) && AllAnswered(b', after)
             && (keys.Some? ==> Decoded(b'.objects, keys.value, states))
    ensures ReadPages(Run(prefix, b, ops).0, pages, filter).1.Some?
    ensures |names| == |states| && Distinct(names)
    ensures var replies := Run(prefix, b, ops).1;
            && (forall i | 0 <= i < |names| :: LastSaved(ops, replies, names[i]) == Some(states[i]) && Matches(states[i], filter))
            && (forall name :: LastSaved(ops, replies, name).Some? && Matches(LastSaved(ops, replies, name).value, filter) ==>
                  name in names)
  {
    var (b', replies) := Run(prefix, b, ops);
    ListStatesExact(b', pages, prefix, filter);
    RunKeepsOurs(prefix, b, ops);
    var keys := ReadPages(b', pages, filter).1.value;
    names := seq(|keys|, i requires 0 <= i < |keys| => NameIn(prefix, keys[i]));
    forall i | 0 <= i < |keys|
      ensures keys[i] == StateKeyFor(prefix, names[i])
      ensures LastSaved(ops, replies, names[i]) == Some(states[i]) && Matches(states[i], filter)
    {
      assert keys[i] in keys;
      ReadableIsState(prefix, b'.objects, keys[i]);
      KeptIff(prefix, b, ops, filter, names[i]);
    }
    forall name | LastSaved(ops, replies, name).Some? && Matches(LastSaved(ops, replies, name).value, filter)
      ensures name in names
    {
      KeptIff(prefix, b, ops, filter, name);
      KeysHavePrefix(prefix, name);
      var i :| 0 <= i < |keys| && keys[i] == StateKeyFor(prefix, name);
      NameInKey(prefix, name);
      assert names[i] == name;
    }
  }
}
