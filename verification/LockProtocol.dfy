/**
Any number of clients sharing one bucket, interleaved at single S3 calls. Each client
that holds a lock reads, writes or deletes the state it locked, and only it unlocks;
nothing in the store enforces the last rule, so it is a rule about clients.
*/
module LockProtocol {
  import opened Wrappers
  import opened ObjectStore
  import opened StateStore

  /** Where a client stands between taking a lock and giving it back. */
  datatype Phase =
    | Holding
    | Informed(seen: Option<IaCState>)
    | Removing(seen: Option<IaCState>)
    | Releasing

  datatype Session = Session(id: string, phase: Phase) {
    function Name(): string { SanitizeID(id) }
    predicate Knows() { phase.Informed? || phase.Removing? }
  }

  /** A successful write: the state it was computed from, and the state it left. */
  datatype Write = Write(name: string, based: Option<IaCState>, left: Option<IaCState>)

  datatype System = System(bucket: Bucket, sessions: map<nat, Session>, history: seq<Write>)

  /** One client makes one S3 call. */
  datatype Event =
    | TakeLock(c: nat, id: string, now: string)
    | ReadState(c: nat)
    | WriteState(c: nat, state: IaCState)
    | CheckState(c: nat)
    | RemoveState(c: nat)
    | CheckLock(c: nat)
    | RemoveLock(c: nat)

  function Move(s: System, b: Bucket, c: nat, phase: Phase): System
    requires c in s.sessions
  {
    s.(bucket := b, sessions := s.sessions[c := s.sessions[c].(phase := phase)])
  }

  function Wrote(s: System, b: Bucket, c: nat, left: Option<IaCState>): System
    requires c in s.sessions && s.sessions[c].Knows()
  {
    Move(s, b, c, Informed(left)).(history := s.history + [Write(s.sessions[c].Name(), s.sessions[c].phase.seen, left)])
  }

  function TakeLockCall(prefix: string, s: System, c: nat, id: string, now: string): System {
    if c in s.sessions then s
    else
      var (b, reply) := LockState(prefix, s.bucket, id, now);
      if reply.Ok? then s.(bucket := b, sessions := s.sessions[c := Session(id, Holding)])
      else s.(bucket := b)
  }

  function ReadStateCall(prefix: string, s: System, c: nat): System {
    if c !in s.sessions || !(s.sessions[c].phase.Holding? || s.sessions[c].phase.Informed?) then s
    else
      var (b, reply) := GetState(prefix, s.bucket, s.sessions[c].id);
      Move(s, b, c, if reply.Ok? then Informed(reply.value) else s.sessions[c].phase)
  }

  function WriteStateCall(prefix: string, s: System, c: nat, st: IaCState): System {
    if c !in s.sessions || !s.sessions[c].phase.Informed? || SanitizeID(st.resourceID) != s.sessions[c].Name() then s
    else
      var (b, reply) := SaveState(prefix, s.bucket, Some(st));
      if reply.Err? then s.(bucket := b) else Wrote(s, b, c, Some(st))
  }

  function CheckStateCall(prefix: string, s: System, c: nat): System {
    if c !in s.sessions || !s.sessions[c].phase.Informed? then s
    else
      var (b, head) := s.bucket.Head(StateKey(prefix, s.sessions[c].id));
      Move(s, b, c, if head.Ok? then Removing(s.sessions[c].phase.seen) else s.sessions[c].phase)
  }

  function RemoveStateCall(prefix: string, s: System, c: nat): System {
    if c !in s.sessions || !s.sessions[c].phase.Removing? then s
    else
      var (b, gone) := s.bucket.Delete(StateKey(prefix, s.sessions[c].id));
      if gone.Err? then Move(s, b, c, Informed(s.sessions[c].phase.seen)) else Wrote(s, b, c, None)
  }

  function CheckLockCall(prefix: string, s: System, c: nat): System {
    if c !in s.sessions || !(s.sessions[c].phase.Holding? || s.sessions[c].phase.Informed?) then s
    else
      var (b, head) := s.bucket.Head(LockKey(prefix, s.sessions[c].id));
      Move(s, b, c, if head.Ok? then Releasing else s.sessions[c].phase)
  }

  function RemoveLockCall(prefix: string, s: System, c: nat): System {
    if c !in s.sessions || !s.sessions[c].phase.Releasing? then s
    else
      var (b, gone) := s.bucket.Delete(LockKey(prefix, s.sessions[c].id));
      if gone.Err? then Move(s, b, c, Holding) else s.(bucket := b, sessions := s.sessions - {c})
  }

  /** The call an event makes, if the client is at that point; otherwise nothing happens. */
  function Next(prefix: string, s: System, e: Event): System {
    match e
    case TakeLock(c, id, now) => TakeLockCall(prefix, s, c, id, now)
    case ReadState(c) => ReadStateCall(prefix, s, c)
    case WriteState(c, st) => WriteStateCall(prefix, s, c, st)
    case CheckState(c) => CheckStateCall(prefix, s, c)
    case RemoveState(c) => RemoveStateCall(prefix, s, c)
    case CheckLock(c) => CheckLockCall(prefix, s, c)
    case RemoveLock(c) => RemoveLockCall(prefix, s, c)
  }

  function Run(prefix: string, s: System, events: seq<Event>): System {
    if events == [] then s
    else Next(prefix, Run(prefix, s, events[..|events| - 1]), events[|events| - 1])
  }

  /* ----- what holds on every run ----- */

  /** What a history leaves under a name. */
  function Latest(start: map<string, Body>, history: seq<Write>, name: string): Option<Body> {
    if history == [] then Lookup(start, name)
    else
      var last := history[|history| - 1];
      if last.name == name then AsBody(last.left) else Latest(start, history[..|history| - 1], name)
  }

  /** No update is lost: every write was computed from exactly what the writes before it
      had left. */
  ghost predicate NoLostUpdate(start: map<string, Body>, history: seq<Write>) {
    forall k :: 0 <= k < |history| ==>
      AsBody(history[k].based) == Latest(start, history[..k], history[k].name)
  }

  type Sessions = map<nat, Session>

  ghost predicate Exclusive(ss: Sessions) {
    forall c, d :: c in ss && d in ss && ss[c].Name() == ss[d].Name() ==> c == d
  }

  ghost predicate Held(ss: Sessions, name: string) {
    exists c :: c in ss && ss[c].Name() == name
  }

  ghost predicate LocksAreHeld(locks: set<string>, ss: Sessions) {
    forall x: string :: x in locks <==> Held(ss, x)
  }

  /** What an informed client has seen is what is still there. */
  ghost predicate SeenIsCurrent(states: map<string, Body>, ss: Sessions) {
    forall c :: c in ss && ss[c].Knows() ==> Lookup(states, ss[c].Name()) == AsBody(ss[c].phase.seen)
  }

  ghost predicate HistoryLeaves(start: map<string, Body>, history: seq<Write>, states: map<string, Body>) {
    forall x: string :: Latest(start, history, x) == Lookup(states, x)
  }

  /** The bucket holds table `t`, whose locks are the sessions and whose states are what
      the history leaves and what every informed client has seen. */
  ghost predicate Inv(prefix: string, start: map<string, Body>, s: System, t: Table) {
    && Holds(prefix, s.bucket.objects, t)
    && Exclusive(s.sessions)
    && LocksAreHeld(t.locks, s.sessions)
    && SeenIsCurrent(t.states, s.sessions)
    && HistoryLeaves(start, s.history, t.states)
    && NoLostUpdate(start, s.history)
  }

  lemma HistoryGrows(start: map<string, Body>, history: seq<Write>, states: map<string, Body>,
                     states': map<string, Body>, w: Write)
    requires NoLostUpdate(start, history) && HistoryLeaves(start, history, states)
    requires AsBody(w.based) == Lookup(states, w.name)
    requires forall x: string :: Lookup(states', x) == if x == w.name then AsBody(w.left) else Lookup(states, x)
    ensures NoLostUpdate(start, history + [w]) && HistoryLeaves(start, history + [w], states')
  {
    var longer := history + [w];
    assert longer[..|history|] == history;
    forall k | 0 <= k < |longer|
      ensures AsBody(longer[k].based) == Latest(start, longer[..k], longer[k].name)
    {
      assert k < |history| ==> longer[..k] == history[..k];
      assert k == |history| ==> Latest(start, history, w.name) == Lookup(states, w.name);
    }
    forall x: string ensures Latest(start, longer, x) == Lookup(states', x) {
      assert Latest(start, history, x) == Lookup(states, x);
    }
  }

  /** A client that moves on but keeps its id keeps every name held as it was. */
  lemma MoveKeeps(locks: set<string>, ss: Sessions, c: nat, phase: Phase)
    requires c in ss && Exclusive(ss) && LocksAreHeld(locks, ss)
    ensures var ss' := ss[c := ss[c].(phase := phase)]; Exclusive(ss') && LocksAreHeld(locks, ss')
  {
    var ss' := ss[c := ss[c].(phase := phase)];
    forall d | d in ss ensures d in ss' && ss'[d].Name() == ss[d].Name() {}
    forall x: string ensures Held(ss', x) <==> Held(ss, x) {
      if Held(ss, x) {
        var d :| d in ss && ss[d].Name() == x;
        assert ss'[d].Name() == x;
      }
    }
  }

  lemma EnterKeeps(states: map<string, Body>, locks: set<string>, ss: Sessions, c: nat, id: string)
    requires c !in ss && Exclusive(ss) && LocksAreHeld(locks, ss) && SeenIsCurrent(states, ss)
    requires SanitizeID(id) !in locks
    ensures var ss' := ss[c := Session(id, Holding)];
            Exclusive(ss') && LocksAreHeld(locks + {SanitizeID(id)}, ss') && SeenIsCurrent(states, ss')
  {
    var ss' := ss[c := Session(id, Holding)];
    assert !Held(ss, SanitizeID(id));
    forall d | d in ss ensures ss'[d] == ss[d] && ss[d].Name() != SanitizeID(id) {}
    forall x: string ensures Held(ss', x) <==> Held(ss, x) || x == SanitizeID(id) {
      if Held(ss, x) {
        var d :| d in ss && ss[d].Name() == x;
        assert ss'[d].Name() == x;
      }
      assert ss'[c].Name() == SanitizeID(id);
    }
  }

  lemma LeaveKeeps(states: map<string, Body>, locks: set<string>, ss: Sessions, c: nat)
    requires c in ss && Exclusive(ss) && LocksAreHeld(locks, ss) && SeenIsCurrent(states, ss)
    ensures Exclusive(ss - {c}) && LocksAreHeld(locks - {ss[c].Name()}, ss - {c})
    ensures SeenIsCurrent(states, ss - {c})
  {
    var ss' := ss - {c};
    forall x: string ensures Held(ss', x) <==> Held(ss, x) && x != ss[c].Name() {
      if Held(ss, x) && x != ss[c].Name() {
        var d :| d in ss && ss[d].Name() == x;
        assert d in ss' && ss'[d].Name() == x;
      }
    }
  }

  /** Only the lock's holder writes, so nobody else's knowledge is touched. */
  lemma WriteKeepsSeen(states: map<string, Body>, states': map<string, Body>, ss: Sessions, c: nat, left: Option<IaCState>)
    requires c in ss && Exclusive(ss) && SeenIsCurrent(states, ss)
    requires forall x: string ::
               Lookup(states', x) == if x == ss[c].Name() then AsBody(left) else Lookup(states, x)
    ensures SeenIsCurrent(states', ss[c := ss[c].(phase := Informed(left))])
  {
  }

  lemma LockStateOnTable(prefix: string, b: Bucket, t: Table, id: string, now: string)
    requires Holds(prefix, b.objects, t)
    ensures var (b', reply) := LockState(prefix, b, id, now);
            if reply.Ok? then SanitizeID(id) !in t.locks && Holds(prefix, b'.objects, t.(locks := t.locks + {SanitizeID(id)}))
            else b'.objects == b.objects
  {
    OperationRefinesTable(prefix, b, t, Op.Lock(id, now));
    assert Apply(prefix, b, Op.Lock(id, now)) == LockState(prefix, b, id, now);
  }

  lemma TakeLockKeeps(prefix: string, start: map<string, Body>, s: System, t: Table, c: nat, id: string, now: string)
    returns (t': Table)
    requires Inv(prefix, start, s, t)
    ensures Inv(prefix, start, TakeLockCall(prefix, s, c, id, now), t')
  {
    var (b, reply) := LockState(prefix, s.bucket, id, now);
    var s' := TakeLockCall(prefix, s, c, id, now);
    LockStateOnTable(prefix, s.bucket, t, id, now);
    if c in s.sessions || reply.Err? {
      t' := t;
    } else {
      assert s' == s.(bucket := b, sessions := s.sessions[c := Session(id, Holding)]);
      t' := t.(locks := t.locks + {SanitizeID(id)});
      EnterKeeps(t.states, t.locks, s.sessions, c, id);
    }
  }

  lemma ReadStateKeeps(prefix: string, start: map<string, Body>, s: System, t: Table, c: nat)
    requires Inv(prefix, start, s, t)
    ensures Inv(prefix, start, ReadStateCall(prefix, s, c), t)
  {
    if c in s.sessions && (s.sessions[c].phase.Holding? || s.sessions[c].phase.Informed?) {
      var me := s.sessions[c];
      var (b, reply) := GetState(prefix, s.bucket, me.id);
      HoldsAt(prefix, s.bucket.objects, t, me.Name());
      MoveKeeps(t.locks, s.sessions, c, if reply.Ok? then Informed(reply.value) else me.phase);
    }
  }

  lemma SaveStateOnTable(prefix: string, b: Bucket, t: Table, st: IaCState)
    requires Holds(prefix, b.objects, t)
    ensures var (b', reply) := SaveState(prefix, b, Some(st));
            if reply.Ok? then Holds(prefix, b'.objects, t.(states := t.states[SanitizeID(st.resourceID) := Json(st)]))
            else b'.objects == b.objects
  {
    var op := Save(Some(st));
    OperationRefinesTable(prefix, b, t, op);
    AnsweredOrNot(prefix, b, op);
    assert Apply(prefix, b, op).0 == SaveState(prefix, b, Some(st)).0;
  }

  lemma WriteStateKeeps(prefix: string, start: map<string, Body>, s: System, t: Table, c: nat, st: IaCState)
    returns (t': Table)
    requires Inv(prefix, start, s, t)
    ensures Inv(prefix, start, WriteStateCall(prefix, s, c, st), t')
  {
    t' := t;
    SaveStateOnTable(prefix, s.bucket, t, st);
    if c in s.sessions && s.sessions[c].phase.Informed? && SanitizeID(st.resourceID) == s.sessions[c].Name() {
      var (b, reply) := SaveState(prefix, s.bucket, Some(st));
      if reply.Ok? {
        t' := t.(states := t.states[s.sessions[c].Name() := Json(st)]);
        WriteChanges(t.states, s.sessions[c].Name(), st);
        HolderWrites(prefix, start, s, t, c, b, t', Some(st));
      }
    }
  }

  /** Nothing is lost when a client moves on, the bucket stays as it was, and what the
      client claims to know it knew before. */
  lemma MoveKeepsInv(prefix: string, start: map<string, Body>, s: System, t: Table, b: Bucket, c: nat, phase: Phase)
    requires Inv(prefix, start, s, t) && b.objects == s.bucket.objects && c in s.sessions
    requires phase.Holding? || phase.Releasing? || (s.sessions[c].Knows() && phase.seen == s.sessions[c].phase.seen)
    ensures Inv(prefix, start, Move(s, b, c, phase), t)
  {
    MoveKeeps(t.locks, s.sessions, c, phase);
  }

  lemma CheckStateKeeps(prefix: string, start: map<string, Body>, s: System, t: Table, c: nat)
    requires Inv(prefix, start, s, t)
    ensures Inv(prefix, start, CheckStateCall(prefix, s, c), t)
  {
    if c in s.sessions && s.sessions[c].phase.Informed? {
      var (b, head) := s.bucket.Head(StateKey(prefix, s.sessions[c].id));
      var phase := s.sessions[c].phase;
      MoveKeepsInv(prefix, start, s, t, b, c, if head.Ok? then Removing(phase.seen) else phase);
    }
  }

  lemma CheckLockKeeps(prefix: string, start: map<string, Body>, s: System, t: Table, c: nat)
    requires Inv(prefix, start, s, t)
    ensures Inv(prefix, start, CheckLockCall(prefix, s, c), t)
  {
    if c in s.sessions && (s.sessions[c].phase.Holding? || s.sessions[c].phase.Informed?) {
      var (b, head) := s.bucket.Head(LockKey(prefix, s.sessions[c].id));
      MoveKeepsInv(prefix, start, s, t, b, c, if head.Ok? then Releasing else s.sessions[c].phase);
    }
  }

  /** A write by a holder: its name's entry changes to what it left, and so does what it
      knows; the history grows by that write. */
  lemma HolderWrites(prefix: string, start: map<string, Body>, s: System, t: Table, c: nat, b: Bucket, t': Table,
                     left: Option<IaCState>)
    requires Inv(prefix, start, s, t) && c in s.sessions && s.sessions[c].Knows()
    requires Holds(prefix, b.objects, t') && t'.locks == t.locks
    requires forall x: string ::
               Lookup(t'.states, x) == if x == s.sessions[c].Name() then AsBody(left) else Lookup(t.states, x)
    ensures Inv(prefix, start, Wrote(s, b, c, left), t')
  {
    MoveKeeps(t.locks, s.sessions, c, Informed(left));
    WriteKeepsSeen(t.states, t'.states, s.sessions, c, left);
    HistoryGrows(start, s.history, t.states, t'.states, Write(s.sessions[c].Name(), s.sessions[c].phase.seen, left));
  }

  lemma RemoveStateKeeps(prefix: string, start: map<string, Body>, s: System, t: Table, c: nat) returns (t': Table)
    requires Inv(prefix, start, s, t)
    ensures Inv(prefix, start, RemoveStateCall(prefix, s, c), t')
  {
    t' := t;
    if c in s.sessions && s.sessions[c].phase.Removing? {
      var me := s.sessions[c];
      var (b, gone) := s.bucket.Delete(StateKeyFor(prefix, me.Name()));
      if gone.Ok? {
        t' := t.(states := t.states - {me.Name()});
        HoldsAfterStateRemoval(prefix, s.bucket.objects, t, me.Name());
        RemovalChanges(t.states, me.Name());
        HolderWrites(prefix, start, s, t, c, b, t', None);
      } else {
        MoveKeepsInv(prefix, start, s, t, b, c, Informed(me.phase.seen));
      }
    }
  }

  lemma WriteChanges(states: map<string, Body>, name: string, st: IaCState)
    ensures forall x: string :: Lookup(states[name := Json(st)], x) == if x == name then AsBody(Some(st)) else Lookup(states, x)
  {
    forall x: string ensures Lookup(states[name := Json(st)], x) == if x == name then AsBody(Some(st)) else Lookup(states, x) {
      assert AsBody(Some(st)) == Some(Json(st));
    }
  }

  lemma RemovalChanges(states: map<string, Body>, name: string)
    ensures forall x: string :: Lookup(states - {name}, x) == if x == name then AsBody(None) else Lookup(states, x)
  {
  }

  lemma HoldsAfterStateRemoval(prefix: string, o: Objects, t: Table, name: string)
    requires Holds(prefix, o, t)
    ensures Holds(prefix, o - {StateKeyFor(prefix, name)}, t.(states := t.states - {name}))
  {
    HoldsAt(prefix, o, t, name);
    KeysInjective(prefix, name, name);
    HoldsAfter(prefix, o, o - {StateKeyFor(prefix, name)}, t, t.(states := t.states - {name}), name);
  }

  lemma HoldsAfterLockRemoval(prefix: string, o: Objects, t: Table, name: string)
    requires Holds(prefix, o, t)
    ensures Holds(prefix, o - {LockKeyFor(prefix, name)}, t.(locks := t.locks - {name}))
  {
    HoldsAt(prefix, o, t, name);
    KeysInjective(prefix, name, name);
    HoldsAfter(prefix, o, o - {LockKeyFor(prefix, name)}, t, t.(locks := t.locks - {name}), name);
  }

  lemma RemoveLockKeeps(prefix: string, start: map<string, Body>, s: System, t: Table, c: nat) returns (t': Table)
    requires Inv(prefix, start, s, t)
    ensures Inv(prefix, start, RemoveLockCall(prefix, s, c), t')
  {
    t' := t;
    if c in s.sessions && s.sessions[c].phase.Releasing? {
      var name := s.sessions[c].Name();
      var (b, gone) := s.bucket.Delete(LockKeyFor(prefix, name));
      if gone.Ok? {
        t' := t.(locks := t.locks - {name});
        HoldsAfterLockRemoval(prefix, s.bucket.objects, t, name);
        LeaveKeeps(t.states, t.locks, s.sessions, c);
      } else {
        MoveKeepsInv(prefix, start, s, t, b, c, Holding);
      }
    }
  }

  lemma NextKeeps(prefix: string, start: map<string, Body>, s: System, t: Table, e: Event) returns (t': Table)
    requires Inv(prefix, start, s, t)
    ensures Inv(prefix, start, Next(prefix, s, e), t')
  {
    match e
    case TakeLock(c, id, now) => t' := TakeLockKeeps(prefix, start, s, t, c, id, now);
    case ReadState(c) => ReadStateKeeps(prefix, start, s, t, c); t' := t;
    case WriteState(c, st) => t' := WriteStateKeeps(prefix, start, s, t, c, st);
    case CheckState(c) => CheckStateKeeps(prefix, start, s, t, c); t' := t;
    case RemoveState(c) => t' := RemoveStateKeeps(prefix, start, s, t, c);
    case CheckLock(c) => CheckLockKeeps(prefix, start, s, t, c); t' := t;
    case RemoveLock(c) => t' := RemoveLockKeeps(prefix, start, s, t, c);
  }

  ghost predicate Init(prefix: string, s: System, t: Table) {
    Holds(prefix, s.bucket.objects, t) && t.locks == {} && s.sessions == map[] && s.history == []
  }

  lemma {:induction false} RunKeeps(prefix: string, start: map<string, Body>, s: System, t: Table, events: seq<Event>)
    returns (t': Table)
    requires Inv(prefix, start, s, t)
    ensures Inv(prefix, start, Run(prefix, s, events), t')
  {
    if events == [] {
      t' := t;
    } else {
      var n := |events| - 1;
      var t1 := RunKeeps(prefix, start, s, t, events[..n]);
      t' := NextKeeps(prefix, start, Run(prefix, s, events[..n]), t1, events[n]);
    }
  }

  /** However any number of clients interleave and whichever calls go unanswered:
      two clients whose ids share a lock object never both hold it, a lock object exists
      exactly while some client holds or is releasing it, and every write was computed from
      exactly the state the previous write to that object had left, which is what the bucket
      holds. */
  lemma LockProtocolSafe(prefix: string, s: System, t: Table, events: seq<Event>)
    requires Init(prefix, s, t)
    ensures var s' := Run(prefix, s, events);
            && (forall c, d | c in s'.sessions && d in s'.sessions ::
                  LockKey(prefix, s'.sessions[c].id) == LockKey(prefix, s'.sessions[d].id) ==> c == d)
            && (forall id: string :: LockKey(prefix, id) in s'.bucket.objects <==>
                  exists c :: c in s'.sessions && LockKey(prefix, s'.sessions[c].id) == LockKey(prefix, id))
            && NoLostUpdate(t.states, s'.history)
            && (forall id: string ::
                  Lookup(s'.bucket.objects, StateKey(prefix, id)) == Latest(t.states, s'.history, SanitizeID(id)))
  {
    var t' := RunKeeps(prefix, t.states, s, t, events);
    var s' := Run(prefix, s, events);
    forall c, d | c in s'.sessions && d in s'.sessions
      && LockKey(prefix, s'.sessions[c].id) == LockKey(prefix, s'.sessions[d].id)
      ensures c == d
    {
      KeysInjective(prefix, s'.sessions[c].Name(), s'.sessions[d].Name());
    }
    forall id: string
      ensures LockKey(prefix, id) in s'.bucket.objects <==>
              exists c :: c in s'.sessions && LockKey(prefix, s'.sessions[c].id) == LockKey(prefix, id)
      ensures Lookup(s'.bucket.objects, StateKey(prefix, id)) == Latest(t.states, s'.history, SanitizeID(id))
    {
      HoldsAt(prefix, s'.bucket.objects, t', SanitizeID(id));
      forall c | c in s'.sessions
        ensures LockKey(prefix, s'.sessions[c].id) == LockKey(prefix, id) <==> s'.sessions[c].Name() == SanitizeID(id)
      {
        KeysInjective(prefix, s'.sessions[c].Name(), SanitizeID(id));
      }
    }
  }

  /** A holder whose two calls are answered gives the lock back and leaves everything
      else alone. */
  lemma HolderReleases(prefix: string, start: map<string, Body>, s: System, t: Table, c: nat)
    requires Inv(prefix, start, s, t) && c in s.sessions
    requires s.sessions[c].phase.Holding? || s.sessions[c].phase.Informed?
    requires s.bucket.answers(s.bucket.calls) && s.bucket.answers(s.bucket.calls + 1)
    ensures var s' := RemoveLockCall(prefix, CheckLockCall(prefix, s, c), c);
            && s'.sessions == s.sessions - {c}
            && s'.bucket.objects == s.bucket.objects - {LockKey(prefix, s.sessions[c].id)}
            && LockKey(prefix, s.sessions[c].id) in s.bucket.objects
            && s'.history == s.history
  {
    HoldsAt(prefix, s.bucket.objects, t, s.sessions[c].Name());
    assert Held(s.sessions, s.sessions[c].Name());
    var s1 := CheckLockCall(prefix, s, c);
    assert s1 == Move(s, s.bucket.Next(s.bucket.objects), c, Releasing);
    assert s1.sessions - {c} == s.sessions - {c};
  }

  lemma ForeignDeleteSafeIff(prefix: string, start: map<string, Body>, s: System, t: Table, id: string)
    requires Inv(prefix, start, s, t) && s.bucket.Answered()
    ensures var s' := s.(bucket := s.bucket.Delete(LockKey(prefix, id)).0);
            (exists t' :: Inv(prefix, start, s', t')) <==> LockKey(prefix, id) !in s.bucket.objects
  {
    var s' := s.(bucket := s.bucket.Delete(LockKey(prefix, id)).0);
    HoldsAt(prefix, s.bucket.objects, t, SanitizeID(id));
    if LockKey(prefix, id) in s.bucket.objects {
      assert Held(s'.sessions, SanitizeID(id));
      forall t' | Holds(prefix, s'.bucket.objects, t') ensures SanitizeID(id) !in t'.locks {
        HoldsAt(prefix, s'.bucket.objects, t', SanitizeID(id));
      }
    } else {
      assert s'.bucket.objects == s.bucket.objects;
      assert Inv(prefix, start, s', t);
    }
  }

  /** An unlock by a client outside the protocol: its existence check, whatever the clients
      of the protocol do meanwhile, and then, if the check passed, its delete. */
  function ForeignUnlock(prefix: string, s: System, events: seq<Event>, id: string): System {
    var (b, head) := s.bucket.Head(LockKey(prefix, id));
    var s1 := Run(prefix, s.(bucket := b), events);
    if head.Err? then s1 else s1.(bucket := s1.bucket.Delete(LockKey(prefix, id)).0)
  }

  /** Unlock has no owner check. A foreign unlock keeps the invariant exactly when its check
      failed, its delete went unanswered, or the lock object was gone by then: otherwise the
      lock it removes is somebody's. */
  lemma ForeignUnlockSafeIff(prefix: string, start: map<string, Body>, s: System, t: Table, events: seq<Event>, id: string)
    requires Inv(prefix, start, s, t)
    ensures var (b, head) := s.bucket.Head(LockKey(prefix, id));
            var s1 := Run(prefix, s.(bucket := b), events);
            (exists t' :: Inv(prefix, start, ForeignUnlock(prefix, s, events, id), t')) <==>
            head.Err? || !s1.bucket.Answered() || LockKey(prefix, id) !in s1.bucket.objects
  {
    var (b, head) := s.bucket.Head(LockKey(prefix, id));
    assert Inv(prefix, start, s.(bucket := b), t);
    var t1 := RunKeeps(prefix, start, s.(bucket := b), t, events);
    var s1 := Run(prefix, s.(bucket := b), events);
    var s' := ForeignUnlock(prefix, s, events, id);
    if s1.bucket.Answered() {
      ForeignDeleteSafeIff(prefix, start, s1, t1, id);
    }
    if head.Err? || !s1.bucket.Answered() {
      assert s'.bucket.objects == s1.bucket.objects;
      assert Inv(prefix, start, s', t1);
    }
  }

  /** And then nothing keeps a second client from taking a lock that is still held. */
  lemma ForeignUnlockAdmitsSecondHolder(prefix: string, s: System, c: nat, d: nat, now: string)
    requires c in s.sessions && d !in s.sessions
    requires LockKey(prefix, s.sessions[c].id) in s.bucket.objects
    requires forall n :: s.bucket.calls <= n < s.bucket.calls + 3 ==> s.bucket.answers(n)
    ensures var id := s.sessions[c].id;
            var (b, reply) := Apply(prefix, s.bucket, Op.Unlock(id));
            var s' := Next(prefix, s.(bucket := b), TakeLock(d, id, now));
            reply == Ok(None) && d in s'.sessions && !Exclusive(s'.sessions)
  {
    var id := s.sessions[c].id;
    assert s.bucket.answers(s.bucket.calls) && s.bucket.answers(s.bucket.calls + 1) && s.bucket.answers(s.bucket.calls + 2);
    var (b, reply) := Apply(prefix, s.bucket, Op.Unlock(id));
    var s' := Next(prefix, s.(bucket := b), TakeLock(d, id, now));
    assert s'.sessions == s.sessions[d := Session(id, Holding)];
    assert s'.sessions[c].Name() == s'.sessions[d].Name();
  }

  /* ----- a client on its own gets through ----- */

  /** Lock, read, write and unlock. */
  function WriteRound(c: nat, id: string, now: string, st: IaCState): seq<Event> {
    [TakeLock(c, id, now), ReadState(c), WriteState(c, st), CheckLock(c), RemoveLock(c)]
  }

  lemma RunStep(prefix: string, s: System, events: seq<Event>, k: nat)
    requires k < |events|
    ensures Run(prefix, s, events[..k + 1]) == Next(prefix, Run(prefix, s, events[..k]), events[k])
  {
    assert events[..k + 1][..k] == events[..k];
  }

  lemma RoundIs(prefix: string, s: System, c: nat, id: string, now: string, st: IaCState)
    ensures Run(prefix, s, WriteRound(c, id, now, st)) ==
              RemoveLockCall(prefix, CheckLockCall(prefix,
                WriteStateCall(prefix, ReadStateCall(prefix, TakeLockCall(prefix, s, c, id, now), c), c, st), c), c)
  {
    var events := WriteRound(c, id, now, st);
    RunStep(prefix, s, events, 0);
    RunStep(prefix, s, events, 1);
    RunStep(prefix, s, events, 2);
    RunStep(prefix, s, events, 3);
    RunStep(prefix, s, events, 4);
    assert events[..5] == events && events[..0] == [];
  }

  lemma TakesFreeLock(prefix: string, s: System, c: nat, id: string, now: string)
    requires c !in s.sessions && LockKey(prefix, id) !in s.bucket.objects && s.bucket.Answered()
    ensures var s' := TakeLockCall(prefix, s, c, id, now);
            && s' == s.(bucket := s'.bucket, sessions := s.sessions[c := Session(id, Holding)])
            && s'.bucket == s.bucket.Next(s.bucket.objects[LockKey(prefix, id) := Raw(now)])
  {
  }

  lemma ReadsAndWrites(prefix: string, s: System, c: nat, st: IaCState)
    requires c in s.sessions && s.sessions[c].phase.Holding? && s.sessions[c].Name() == SanitizeID(st.resourceID)
    requires s.bucket.answers(s.bucket.calls) && s.bucket.answers(s.bucket.calls + 1)
    requires st.resourceID != "" && st.encodable
    requires var key := StateKey(prefix, s.sessions[c].id); key in s.bucket.objects ==> s.bucket.objects[key].Json?
    ensures var s' := WriteStateCall(prefix, ReadStateCall(prefix, s, c), c, st); var name := s.sessions[c].Name();
            && s'.sessions == s.sessions[c := Session(s.sessions[c].id, Informed(Some(st)))]
            && s'.bucket == Bucket(s.bucket.answers, s.bucket.calls + 2, s.bucket.objects[StateKeyFor(prefix, name) := Json(st)])
            && |s'.history| == |s.history| + 1 && s'.history[..|s.history|] == s.history
            && var w := s'.history[|s.history|];
               w.name == name && w.left == Some(st) && AsBody(w.based) == Lookup(s.bucket.objects, StateKeyFor(prefix, name))
  {
  }

  lemma Releases(prefix: string, s: System, c: nat)
    requires c in s.sessions && s.sessions[c].phase.Informed? && LockKey(prefix, s.sessions[c].id) in s.bucket.objects
    requires s.bucket.answers(s.bucket.calls) && s.bucket.answers(s.bucket.calls + 1)
    ensures var s' := RemoveLockCall(prefix, CheckLockCall(prefix, s, c), c);
            && s'.sessions == s.sessions - {c} && s'.history == s.history
            && s'.bucket.objects == s.bucket.objects - {LockKey(prefix, s.sessions[c].id)}
  {
    var s1 := CheckLockCall(prefix, s, c);
    assert s1 == Move(s, s.bucket.Next(s.bucket.objects), c, Releasing);
    assert s1.sessions - {c} == s.sessions - {c};
  }

  /** A client that finds the lock free and whose five calls are answered saves its state,
      computed from the one it found, and leaves no lock and nothing else changed. */
  lemma WriteRoundCompletes(prefix: string, s: System, c: nat, id: string, now: string, st: IaCState)
    requires c !in s.sessions && LockKey(prefix, id) !in s.bucket.objects
    requires forall n | s.bucket.calls <= n < s.bucket.calls + 5 :: s.bucket.answers(n)
    requires StateKey(prefix, id) in s.bucket.objects ==> s.bucket.objects[StateKey(prefix, id)].Json?
    requires SanitizeID(st.resourceID) == SanitizeID(id) && st.resourceID != "" && st.encodable
    ensures var s' := Run(prefix, s, WriteRound(c, id, now, st));
            && s'.sessions == s.sessions
            && s'.bucket.objects == s.bucket.objects[StateKey(prefix, id) := Json(st)]
            && |s'.history| == |s.history| + 1 && s'.history[..|s.history|] == s.history
            && var w := s'.history[|s.history|];
               w.name == SanitizeID(id) && w.left == Some(st) && AsBody(w.based) == Lookup(s.bucket.objects, StateKey(prefix, id))
  {
    var n := s.bucket.calls;
    assert s.bucket.answers(n) && s.bucket.answers(n + 1) && s.bucket.answers(n + 2) && s.bucket.answers(n + 3) && s.bucket.answers(n + 4);
    RoundIs(prefix, s, c, id, now, st);
    SharedKeys(prefix, id, id);
    TakesFreeLock(prefix, s, c, id, now);
    var s1 := TakeLockCall(prefix, s, c, id, now);
    ReadsAndWrites(prefix, s1, c, st);
    var s3 := WriteStateCall(prefix, ReadStateCall(prefix, s1, c), c, st);
    Releases(prefix, s3, c);
    assert s3.sessions - {c} == s.sessions;
    LockComesAndGoes(s.bucket.objects, LockKey(prefix, id), StateKey(prefix, id), Raw(now), Json(st));
  }

  lemma LockComesAndGoes(o: Objects, lock: string, state: string, held: Body, saved: Body)
    requires lock !in o && lock != state
    ensures o[lock := held][state := saved] - {lock} == o[state := saved]
  {
  }
}
