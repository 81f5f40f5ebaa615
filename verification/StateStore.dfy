/**
The S3 state store: keys, the five single-resource operations, their refinement of a
map of states plus a set of locks, and the class that performs them call by call.
*/
module StateStore {
  import opened Wrappers
  import opened ObjectStore
  import Text

  /* ----- keys ----- */

  function ReplaceAll(s: string, old_: char, new_: char): (r: string)
    ensures |r| == |s|
    ensures forall i :: 0 <= i < |s| ==> r[i] == if s[i] == old_ then new_ else s[i]
  {
    if s == "" then "" else [if s[0] == old_ then new_ else s[0]] + ReplaceAll(s[1..], old_, new_)
  }

  function SanitizeID(id: string): string {
    ReplaceAll(ReplaceAll(id, '/', '_'), '\\', '_')
  }

  function StateKeyFor(prefix: string, name: string): string { prefix + name + ".json" }

  function LockKeyFor(prefix: string, name: string): string { prefix + name + ".lock" }

  function StateKey(prefix: string, id: string): string { StateKeyFor(prefix, SanitizeID(id)) }

  function LockKey(prefix: string, id: string): string { LockKeyFor(prefix, SanitizeID(id)) }

  /** The three characters a sanitised id no longer tells apart. */
  predicate Blurred(c: char) { c == '/' || c == '\\' || c == '_' }

  /** What sanitising forgets: exactly which of the three characters stood where. */
  lemma SanitizeForgets(a: string, b: string)
    ensures SanitizeID(a) == SanitizeID(b) <==>
            |a| == |b| && forall i :: 0 <= i < |a| ==> a[i] == b[i] || (Blurred(a[i]) && Blurred(b[i]))
  {
    forall i | 0 <= i < |a| && |a| == |b|
      ensures SanitizeID(a)[i] == SanitizeID(b)[i] <==> a[i] == b[i] || (Blurred(a[i]) && Blurred(b[i]))
    {
    }
  }

  /** A key is the prefix, then the id with both slashes replaced, then its ending. */
  lemma KeyLayout(prefix: string, id: string)
    ensures var (state, lock, n) := (StateKey(prefix, id), LockKey(prefix, id), |prefix| + |id|);
            && |state| == |lock| == n + 5 && prefix <= state && prefix <= lock
            && state[n..] == ".json" && lock[n..] == ".lock"
            && forall i | 0 <= i < |id| ::
                 state[|prefix| + i] == lock[|prefix| + i] == if id[i] == '/' || id[i] == '\\' then '_' else id[i]
  {
    var name := SanitizeID(id);
    assert forall i | 0 <= i < |id| :: (prefix + name + ".json")[|prefix| + i] == name[i];
    assert forall i | 0 <= i < |id| :: (prefix + name + ".lock")[|prefix| + i] == name[i];
  }

  lemma KeysInjective(prefix: string, x: string, y: string)
    ensures StateKeyFor(prefix, x) == StateKeyFor(prefix, y) <==> x == y
    ensures LockKeyFor(prefix, x) == LockKeyFor(prefix, y) <==> x == y
    ensures StateKeyFor(prefix, x) != LockKeyFor(prefix, y)
  {
    assert StateKeyFor(prefix, x)[|prefix|..|prefix| + |x|] == x;
    assert StateKeyFor(prefix, y)[|prefix|..|prefix| + |y|] == y;
    assert LockKeyFor(prefix, x)[|prefix|..|prefix| + |x|] == x;
    assert LockKeyFor(prefix, y)[|prefix|..|prefix| + |y|] == y;
    Text.SuffixOfConcat(prefix + x, ".json");
    Text.SuffixOfConcat(prefix + y, ".lock");
    Text.SuffixesClash(StateKeyFor(prefix, x), ".json", ".lock", 1);
  }

  /** Two ids share a lock object exactly when they share a state object, and a state
      object is never mistaken for a lock object. */
  lemma SharedKeys(prefix: string, a: string, b: string)
    ensures StateKey(prefix, a) == StateKey(prefix, b) <==> LockKey(prefix, a) == LockKey(prefix, b)
    ensures StateKey(prefix, a) == StateKey(prefix, b) <==> SanitizeID(a) == SanitizeID(b)
    ensures StateKey(prefix, a) != LockKey(prefix, b)
  {
    KeysInjective(prefix, SanitizeID(a), SanitizeID(b));
  }

  /* ----- the operations, as functions of the bucket ----- */

  datatype StoreError =
    | Unreachable | Undecodable | NilState | EmptyResourceID | Unencodable
    | StateNotFound | AlreadyLocked | NotLocked

  /** Every operation answers with a state, with nothing, or with an error. */
  type Reply = Result<Option<IaCState>, StoreError>

  datatype Op =
    | Get(id: string)
    | Save(state: Option<IaCState>)
    | Delete(id: string)
    | Lock(id: string, now: string)
    | Unlock(id: string)

  function GetState(prefix: string, b: Bucket, id: string): (Bucket, Reply) {
    var (b1, got) := b.Get(StateKey(prefix, id));
    (b1,
     match got
     case Err(NotFound) => Ok(None)
     case Err(_) => Err(Unreachable)
     case Ok(Raw(_)) => Err(Undecodable)
     case Ok(Json(st)) => Ok(Some(st)))
  }

  function SaveState(prefix: string, b: Bucket, state: Option<IaCState>): (Bucket, Reply) {
    match state
    case None => (b, Err(NilState))
    case Some(st) =>
      if st.resourceID == "" then (b, Err(EmptyResourceID))
      else if !st.encodable then (b, Err(Unencodable))
      else
        var (b1, put) := b.Put(StateKey(prefix, st.resourceID), Json(st));
        (b1, if put.Ok? then Ok(None) else Err(Unreachable))
  }

  /** HEAD, then DELETE: the shape DeleteState and Unlock share. */
  function RemoveExisting(b: Bucket, key: string, missing: StoreError): (Bucket, Reply) {
    var (b1, head) := b.Head(key);
    if head.Err? then (b1, Err(if head.error == NotFound then missing else Unreachable))
    else
      var (b2, gone) := b1.Delete(key);
      (b2, if gone.Ok? then Ok(None) else Err(Unreachable))
  }

  function LockState(prefix: string, b: Bucket, id: string, now: string): (Bucket, Reply) {
    var (b1, put) := b.PutIfAbsent(LockKey(prefix, id), Raw(now));
    (b1,
     if put.Ok? then Ok(None)
     else Err(if put.error == PreconditionFailed then AlreadyLocked else Unreachable))
  }

  function Apply(prefix: string, b: Bucket, op: Op): (Bucket, Reply) {
    match op
    case Get(id) => GetState(prefix, b, id)
    case Save(state) => SaveState(prefix, b, state)
    case Delete(id) => RemoveExisting(b, StateKey(prefix, id), StateNotFound)
    case Lock(id, now) => LockState(prefix, b, id, now)
    case Unlock(id) => RemoveExisting(b, LockKey(prefix, id), NotLocked)
  }

  /* ----- what the store is for: a map of states and a set of locks ----- */

  datatype Table = Table(states: map<string, Body>, locks: set<string>)

  /** The table's own operations, keyed by sanitised id and never failing to answer. */
  function TableStep(t: Table, op: Op): (Table, Reply) {
    match op
    case Get(id) =>
      (t, match Lookup<string, Body>(t.states, SanitizeID(id))
          case None => Ok(None)
          case Some(Json(st)) => Ok(Some(st))
          case Some(Raw(_)) => Err(Undecodable))
    case Save(None) => (t, Err(NilState))
    case Save(Some(st)) =>
      if st.resourceID == "" then (t, Err(EmptyResourceID))
      else if !st.encodable then (t, Err(Unencodable))
      else (t.(states := t.states[SanitizeID(st.resourceID) := Json(st)]), Ok(None))
    case Delete(id) =>
      if SanitizeID(id) in t.states then (t.(states := t.states - {SanitizeID(id)}), Ok(None))
      else (t, Err(StateNotFound))
    case Lock(id, _) =>
      if SanitizeID(id) in t.locks then (t, Err(AlreadyLocked))
      else (t.(locks := t.locks + {SanitizeID(id)}), Ok(None))
    case Unlock(id) =>
      if SanitizeID(id) in t.locks then (t.(locks := t.locks - {SanitizeID(id)}), Ok(None))
      else (t, Err(NotLocked))
  }

  /** The bucket holds the table: every name's state object and lock object agree with it. */
  ghost predicate Holds(prefix: string, objects: Objects, t: Table) {
    forall x: string ::
      && Lookup(objects, StateKeyFor(prefix, x)) == Lookup(t.states, x)
      && (LockKeyFor(prefix, x) in objects <==> x in t.locks)
  }

  ghost predicate AllAnswered(before: Bucket, after: Bucket) {
    forall n :: before.calls <= n < after.calls ==> before.answers(n)
  }

  lemma HoldsAt(prefix: string, objects: Objects, t: Table, x: string)
    requires Holds(prefix, objects, t)
    ensures Lookup(objects, StateKeyFor(prefix, x)) == Lookup(t.states, x)
    ensures LockKeyFor(prefix, x) in objects <==> x in t.locks
  {
    assert Lookup(objects, StateKeyFor(prefix, x)) == Lookup(t.states, x);
  }

  /** Changing what one name's two objects hold changes that name's entry and no other. */
  lemma HoldsAfter(prefix: string, o: Objects, o': Objects, t: Table, t': Table, name: string)
    requires Holds(prefix, o, t)
    requires forall k :: k != StateKeyFor(prefix, name) && k != LockKeyFor(prefix, name) ==> Lookup(o', k) == Lookup(o, k)
    requires forall x :: x != name ==> Lookup(t'.states, x) == Lookup(t.states, x)
    requires forall x :: x != name ==> (x in t'.locks <==> x in t.locks)
    requires Lookup(o', StateKeyFor(prefix, name)) == Lookup(t'.states, name)
    requires LockKeyFor(prefix, name) in o' <==> name in t'.locks
    ensures Holds(prefix, o', t')
  {
    forall x: string
      ensures Lookup(o', StateKeyFor(prefix, x)) == Lookup(t'.states, x)
      ensures LockKeyFor(prefix, x) in o' <==> x in t'.locks
    {
      if x != name {
        KeysInjective(prefix, x, name);
        KeysInjective(prefix, name, x);
        HoldsAt(prefix, o, t, x);
        assert Lookup(o', LockKeyFor(prefix, x)) == Lookup(o, LockKeyFor(prefix, x));
      }
    }
  }

  /** What an operation touches: the name it sanitises to. */
  function NameOf(op: Op): string {
    SanitizeID(match op
               case Save(None) => ""
               case Save(Some(st)) => st.resourceID
               case Get(id) => id
               case Delete(id) => id
               case Lock(id, _) => id
               case Unlock(id) => id)
  }

  lemma AnsweredOrNot(prefix: string, b: Bucket, op: Op)
    ensures var (b', reply) := Apply(prefix, b, op);
            && b'.answers == b.answers && b'.calls >= b.calls
            && (reply == Err(Unreachable) <==> !AllAnswered(b, b'))
            && (reply == Err(Unreachable) ==> b'.objects == b.objects)
  {
    var (b', reply) := Apply(prefix, b, op);
    assert b'.calls <= b.calls + 2;
    if reply == Err(Unreachable) {
      assert !b.answers(b.calls) || (b'.calls == b.calls + 2 && !b.answers(b.calls + 1));
    }
  }

  /** At the operation's own name, bucket and table answer and change alike. */
  lemma AgreeAtName(prefix: string, b: Bucket, t: Table, op: Op)
    requires Lookup(b.objects, StateKeyFor(prefix, NameOf(op))) == Lookup(t.states, NameOf(op))
    requires LockKeyFor(prefix, NameOf(op)) in b.objects <==> NameOf(op) in t.locks
    requires StateKeyFor(prefix, NameOf(op)) != LockKeyFor(prefix, NameOf(op))
    requires Apply(prefix, b, op).1 != Err(Unreachable)
    ensures Apply(prefix, b, op).1 == TableStep(t, op).1
    ensures var (o', t') := (Apply(prefix, b, op).0.objects, TableStep(t, op).0);
            && Lookup(o', StateKeyFor(prefix, NameOf(op))) == Lookup(t'.states, NameOf(op))
            && (LockKeyFor(prefix, NameOf(op)) in o' <==> NameOf(op) in t'.locks)
  {
  }

  /** Away from the operation's own name, neither changes. */
  lemma OthersUntouched(prefix: string, b: Bucket, t: Table, op: Op)
    ensures forall k :: k != StateKeyFor(prefix, NameOf(op)) && k != LockKeyFor(prefix, NameOf(op)) ==>
              Lookup(Apply(prefix, b, op).0.objects, k) == Lookup(b.objects, k)
    ensures forall x :: x != NameOf(op) ==> Lookup(TableStep(t, op).0.states, x) == Lookup(t.states, x)
    ensures forall x :: x != NameOf(op) ==> (x in TableStep(t, op).0.locks <==> x in t.locks)
  {
  }

  /** One operation on the bucket is the table's operation; it reports the service
      unreachable exactly when one of its calls went unanswered, and then changed nothing. */
  lemma OperationRefinesTable(prefix: string, b: Bucket, t: Table, op: Op)
    requires Holds(prefix, b.objects, t)
    ensures var (b', reply) := Apply(prefix, b, op);
            && (reply == Err(Unreachable) <==> !AllAnswered(b, b'))
            && (reply == Err(Unreachable) ==> b'.objects == b.objects)
            && (reply != Err(Unreachable) ==>
                  reply == TableStep(t, op).1 && Holds(prefix, b'.objects, TableStep(t, op).0))
  {
    AnsweredOrNot(prefix, b, op);
    HoldsAt(prefix, b.objects, t, NameOf(op));
    KeysInjective(prefix, NameOf(op), NameOf(op));
    if Apply(prefix, b, op).1 != Err(Unreachable) {
      AgreeAtName(prefix, b, t, op);
      OthersUntouched(prefix, b, t, op);
      HoldsAfter(prefix, b.objects, Apply(prefix, b, op).0.objects, t, TableStep(t, op).0, NameOf(op));
    }
  }

  /* ----- runs ----- */

  function Run(prefix: string, b: Bucket, ops: seq<Op>): (r: (Bucket, seq<Reply>))
    ensures |r.1| == |ops|
  {
    if ops == [] then (b, [])
    else
      var (b1, replies) := Run(prefix, b, ops[..|ops| - 1]);
      var (b2, reply) := Apply(prefix, b1, ops[|ops| - 1]);
      (b2, replies + [reply])
  }

  /** The table after the operations that were answered. */
  function TableRun(t: Table, ops: seq<Op>, replies: seq<Reply>): Table
    requires |ops| == |replies|
  {
    if ops == [] then t
    else
      var n := |ops| - 1;
      var t1 := TableRun(t, ops[..n], replies[..n]);
      if replies[n] == Err(Unreachable) then t1 else TableStep(t1, ops[n]).0
  }

  /** On every run, whatever calls go unanswered, each reply is the table's own reply at
      that point or a report that the service was unreachable, and the bucket ends
      holding the table. */
  lemma {:induction false} RunRefinesTable(prefix: string, b: Bucket, t: Table, ops: seq<Op>)
    requires Holds(prefix, b.objects, t)
    ensures var (b', replies) := Run(prefix, b, ops);
            && Holds(prefix, b'.objects, TableRun(t, ops, replies))
            && forall k :: 0 <= k < |ops| ==>
                 replies[k] == Err(Unreachable)
                 || replies[k] == TableStep(TableRun(t, ops[..k], replies[..k]), ops[k]).1
  {
    if ops != [] {
      var n := |ops| - 1;
      var (b1, first) := Run(prefix, b, ops[..n]);
      RunRefinesTable(prefix, b, t, ops[..n]);
      OperationRefinesTable(prefix, b1, TableRun(t, ops[..n], first), ops[n]);
      var replies := Run(prefix, b, ops).1;
      assert replies[..n] == first;
      forall k | 0 <= k < n
        ensures replies[k] == Err(Unreachable)
                || replies[k] == TableStep(TableRun(t, ops[..k], replies[..k]), ops[k]).1
      {
        assert ops[..n][..k] == ops[..k] && first[..k] == replies[..k];
      }
    }
  }

  function AsBody(st: Option<IaCState>): Option<Body> {
    match st case None => None case Some(v) => Some(Json(v))
  }

  /** Looking back through a run for the last answered save or delete of a name. */
  function LastSaved(ops: seq<Op>, replies: seq<Reply>, name: string): Option<IaCState>
    requires |ops| == |replies|
  {
    if ops == [] then None
    else
      var n := |ops| - 1;
      match ops[n]
      case Save(Some(st)) =>
        if replies[n].Ok? && SanitizeID(st.resourceID) == name then Some(st)
        else LastSaved(ops[..n], replies[..n], name)
      case Delete(id) =>
        if replies[n].Ok? && SanitizeID(id) == name then None
        else LastSaved(ops[..n], replies[..n], name)
      case _ => LastSaved(ops[..n], replies[..n], name)
  }

  /** One answered or unanswered step moves the table's entry as the look-back does. */
  lemma StepMovesEntry(t: Table, op: Op, name: string)
    ensures Lookup(TableStep(t, op).0.states, name) ==
            if TableStep(t, op).1.Err? || (!op.Save? && !op.Delete?) || NameOf(op) != name
            then Lookup(t.states, name)
            else if op.Save? then Some(Json(op.state.value)) else None
  {
  }

  lemma {:induction false} TableHoldsLastSaved(prefix: string, b: Bucket, ops: seq<Op>, name: string)
    requires Holds(prefix, b.objects, Table(map[], {}))
    ensures var replies := Run(prefix, b, ops).1;
            Lookup(TableRun(Table(map[], {}), ops, replies).states, name)
            == AsBody(LastSaved(ops, replies, name))
  {
    if ops != [] {
      var n := |ops| - 1;
      var empty := Table(map[], {});
      var replies := Run(prefix, b, ops).1;
      TableHoldsLastSaved(prefix, b, ops[..n], name);
      RunRefinesTable(prefix, b, empty, ops);
      assert Run(prefix, b, ops[..n]).1 == replies[..n];
      var t1 := TableRun(empty, ops[..n], replies[..n]);
      assert replies[n] == Err(Unreachable) || replies[n] == TableStep(t1, ops[n]).1;
      StepMovesEntry(t1, ops[n], name);
    }
  }

  lemma GetReads(prefix: string, b: Bucket, id: string, st: Option<IaCState>)
    requires Lookup(b.objects, StateKeyFor(prefix, SanitizeID(id))) == AsBody(st)
    ensures GetState(prefix, b, id).1 == if b.Answered() then Ok(st) else Err(Unreachable)
  {
  }

  lemma BucketHoldsLastSaved(prefix: string, b: Bucket, ops: seq<Op>, name: string)
    requires Holds(prefix, b.objects, Table(map[], {}))
    ensures var (b', replies) := Run(prefix, b, ops);
            Lookup(b'.objects, StateKeyFor(prefix, name)) == AsBody(LastSaved(ops, replies, name))
  {
    var (b', replies) := Run(prefix, b, ops);
    TableHoldsLastSaved(prefix, b, ops, name);
    RunRefinesTable(prefix, b, Table(map[], {}), ops);
    HoldsAt(prefix, b'.objects, TableRun(Table(map[], {}), ops, replies), name);
  }

  /** GetState after any run on an empty store answers, under any id with the same
      sanitised form, what was last saved and not deleted since; or that the service is
      unreachable. */
  lemma GetReturnsLastSaved(prefix: string, b: Bucket, ops: seq<Op>, id: string)
    requires Holds(prefix, b.objects, Table(map[], {}))
    ensures var (b', replies) := Run(prefix, b, ops);
            var reply := GetState(prefix, b', id).1;
            reply == (if b'.Answered() then Ok(LastSaved(ops, replies, SanitizeID(id))) else Err(Unreachable))
  {
    var (b', replies) := Run(prefix, b, ops);
    BucketHoldsLastSaved(prefix, b, ops, SanitizeID(id));
    GetReads(prefix, b', id, LastSaved(ops, replies, SanitizeID(id)));
  }
}
