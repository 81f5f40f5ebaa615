/**
The log pump: pages of events fetched by token and written to a sink until the service
has no further token. Every fetch and every write may fail.
*/
module JobLogs {
  import opened Wrappers

  /** A page of messages; a nil message is an empty one. */
  datatype Page = Page(events: seq<string>, next: Option<string>)

  type Paging = Option<string> -> Page

  /** The service: what it holds for each token, and which calls it answers. */
  datatype Logs = Logs(page: Paging, answers: nat -> bool, calls: nat) {
    function Get(token: Option<string>): (Logs, Option<Page>) {
      (this.(calls := calls + 1), if answers(calls) then Some(page(token)) else None)
    }

    predicate Answered(from: nat, to: nat) { forall i | from <= i < to :: answers(i) }
  }

  datatype Chunk = Data(text: string) | Eof

  datatype Sink = Sink(accepts: nat -> bool, writes: nat, chunks: seq<Chunk>) {
    function Write(chunk: Chunk): (Sink, bool) {
      (Sink(accepts, writes + 1, if accepts(writes) then chunks + [chunk] else chunks), accepts(writes))
    }

    predicate Accepted(from: nat, to: nat) { forall i | from <= i < to :: accepts(i) }
  }

  function Terminated(msg: string): string {
    if msg != "" && msg[|msg| - 1] == '\n' then msg else msg + "\n"
  }

  /** The chunks a page's events make: empty messages make none. */
  function Lines(events: seq<string>): seq<Chunk> {
    if events == [] then []
    else (if events[0] == "" then [] else [Data(Terminated(events[0]))]) + Lines(events[1..])
  }

  function Deliver(s: Sink, chunks: seq<Chunk>): (Sink, bool)
    decreases |chunks|
  {
    if chunks == [] then (s, true)
    else
      var (s1, ok) := s.Write(chunks[0]);
      if !ok then (s1, false) else Deliver(s1, chunks[1..])
  }

  /** At most `n` rounds of the loop, and its verdict if it has ended by then. */
  function Pump(l: Logs, s: Sink, token: Option<string>, n: nat): (Logs, Sink, Option<bool>)
    decreases n
  {
    if n == 0 then (l, s, None)
    else
      var (l1, page) := l.Get(token);
      if page.None? then (l1, s, Some(false))
      else
        var (s1, ok) := Deliver(s, Lines(page.value.events));
        if !ok then (l1, s1, Some(false))
        else if page.value.next.None? || (token.Some? && page.value.next == token) then
          var (s2, last) := s1.Write(Eof);
          (l1, s2, Some(last))
        else Pump(l1, s1, page.value.next, n - 1)
  }

  /** The token of the k-th fetch, if the loop gets there. */
  function Token(page: Paging, k: nat): Option<string> {
    if k == 0 then None else page(Token(page, k - 1)).next
  }

  function PageAt(page: Paging, k: nat): Page { page(Token(page, k)) }

  predicate Stops(page: Paging, k: nat) {
    PageAt(page, k).next.None? || (Token(page, k).Some? && PageAt(page, k).next == Token(page, k))
  }

  /** From the k-th fetch on, the service first stops at fetch `end`. */
  predicate FirstStop(page: Paging, k: nat, end: nat)
    decreases end - k
  {
    k <= end && if Stops(page, k) then k == end else FirstStop(page, k + 1, end)
  }

  lemma {:induction false} FirstStopIs(page: Paging, k: nat, end: nat)
    ensures FirstStop(page, k, end) <==> k <= end && Stops(page, end) && forall j: nat | k <= j < end :: !Stops(page, j)
    decreases end - k
  {
    if k <= end && !Stops(page, k) {
      FirstStopIs(page, k + 1, end);
    }
  }

  /** The events of the fetches from the k-th to the last, and the chunks they make. */
  function Events(page: Paging, k: nat, end: nat): seq<string>
    decreases end + 1 - k
  {
    if k > end then [] else PageAt(page, k).events + Events(page, k + 1, end)
  }

  lemma {:induction false} LinesAppend(xs: seq<string>, ys: seq<string>)
    ensures Lines(xs + ys) == Lines(xs) + Lines(ys)
  {
    if xs == [] {
      assert xs + ys == ys;
    } else {
      assert (xs + ys)[1..] == xs[1..] + ys;
      LinesAppend(xs[1..], ys);
    }
  }

  lemma LinesStep(events: seq<string>, i: nat)
    requires i < |events|
    ensures Lines(events[i..]) == if events[i] == "" then Lines(events[i + 1..])
                                  else [Data(Terminated(events[i]))] + Lines(events[i + 1..])
  {
    assert events[i..][1..] == events[i + 1..];
    assert [] + Lines(events[i + 1..]) == Lines(events[i + 1..]);
  }

  lemma DeliverStep(s: Sink, chunk: Chunk, rest: seq<Chunk>)
    ensures Deliver(s, [chunk] + rest) == if s.Write(chunk).1 then Deliver(s.Write(chunk).0, rest) else (s.Write(chunk).0, false)
  {
    assert ([chunk] + rest)[1..] == rest;
  }

  function NonEmpty(events: seq<string>): seq<string> {
    if events == [] then [] else (if events[0] == "" then [] else [events[0]]) + NonEmpty(events[1..])
  }

  /** One chunk for each non-empty message, in order. */
  lemma {:induction false} LinesExact(events: seq<string>)
    ensures |Lines(events)| == |NonEmpty(events)|
    ensures forall i | 0 <= i < |NonEmpty(events)| :: Lines(events)[i] == Data(Terminated(NonEmpty(events)[i]))
  {
    if events != [] {
      LinesExact(events[1..]);
    }
  }

  lemma {:induction false} LinesTerminated(events: seq<string>)
    ensures forall c | c in Lines(events) :: c.Data? && c.text != "" && c.text[|c.text| - 1] == '\n'
  {
    if events != [] {
      LinesTerminated(events[1..]);
    }
  }

  /** The text a message is delivered as: itself, made to end in a newline. */
  predicate Delivers(text: string, msg: string) {
    msg != "" &&
    if msg[|msg| - 1] == '\n' then text == msg
    else |text| == |msg| + 1 && text[..|msg|] == msg && text[|msg|] == '\n'
  }

  /** Chunks that deliver the first of some messages, in order. */
  predicate DeliversFirst(chunks: seq<Chunk>, msgs: seq<string>) {
    |chunks| <= |msgs| && forall i | 0 <= i < |chunks| :: chunks[i].Data? && Delivers(chunks[i].text, msgs[i])
  }

  lemma TerminatedDelivers(msg: string)
    requires msg != ""
    ensures Delivers(Terminated(msg), msg)
  {
  }

  lemma {:induction false} NonEmptyIs(events: seq<string>)
    ensures "" !in NonEmpty(events) && multiset(NonEmpty(events)) == multiset(events)["" := 0]
  {
    if events != [] {
      NonEmptyIs(events[1..]);
      assert events == [events[0]] + events[1..];
    }
  }

  lemma LinesDeliver(events: seq<string>)
    ensures DeliversFirst(Lines(events), NonEmpty(events)) && |Lines(events)| == |NonEmpty(events)|
  {
    LinesExact(events);
    NonEmptyIs(events);
    forall i | 0 <= i < |NonEmpty(events)| ensures Delivers(Lines(events)[i].text, NonEmpty(events)[i]) {
      assert NonEmpty(events)[i] in NonEmpty(events);
      TerminatedDelivers(NonEmpty(events)[i]);
    }
  }

  lemma {:induction false} DeliverMeans(s: Sink, chunks: seq<Chunk>)
    ensures var (s', ok) := Deliver(s, chunks);
            && s'.accepts == s.accepts
            && (ok <==> s.Accepted(s.writes, s.writes + |chunks|))
            && (ok ==> s'.chunks == s.chunks + chunks && s'.writes == s.writes + |chunks|)
            && s.chunks <= s'.chunks <= s.chunks + chunks
    decreases |chunks|
  {
    if chunks != [] && s.accepts(s.writes) {
      DeliverMeans(s.Write(chunks[0]).0, chunks[1..]);
      assert s.chunks + [chunks[0]] + chunks[1..] == s.chunks + chunks;
    }
  }

  /** A longer run that has already ended is the same run. */
  lemma {:induction false} PumpStable(l: Logs, s: Sink, token: Option<string>, n: nat, m: nat)
    requires n <= m && Pump(l, s, token, n).2.Some?
    ensures Pump(l, s, token, m) == Pump(l, s, token, n)
    decreases n
  {
    var (l1, page) := l.Get(token);
    if page.Some? {
      var (s1, ok) := Deliver(s, Lines(page.value.events));
      if ok && Pump(l, s, token, n) == Pump(l1, s1, page.value.next, n - 1) && Pump(l1, s1, page.value.next, n - 1).2.Some? {
        PumpStable(l1, s1, page.value.next, n - 1, m - 1);
      }
    }
  }

  /** How a run ended: `all` says whether every fetch was answered and every write accepted,
      `lines` is what there was to deliver. */
  predicate Ended(done: Option<bool>, before: seq<Chunk>, after: seq<Chunk>, all: bool, lines: seq<Chunk>) {
    && done == Some(all)
    && (if all then after == before + lines + [Eof] else before <= after <= before + lines)
  }

  predicate AllGoesWell(l: Logs, s: Sink, fetches: nat, writes: nat) {
    l.Answered(l.calls, l.calls + fetches) && s.Accepted(s.writes, s.writes + writes)
  }

  lemma EndedEarlier(done: Option<bool>, before: seq<Chunk>, mid: seq<Chunk>, after: seq<Chunk>, all: bool,
                     here: seq<Chunk>, there: seq<Chunk>)
    requires mid == before + here && Ended(done, mid, after, all, there)
    ensures Ended(done, before, after, all, here + there)
  {
    assert before + (here + there) == mid + there;
  }

  lemma Prefixes(before: seq<Chunk>, after: seq<Chunk>, here: seq<Chunk>, there: seq<Chunk>)
    requires before <= after <= before + here
    ensures Ended(Some(false), before, after, false, here + there)
  {
    assert before + (here + there) == before + here + there;
  }

  lemma GoesOnWell(l: Logs, s: Sink, here: seq<Chunk>, fetches: nat, writes: nat)
    requires l.answers(l.calls) && Deliver(s, here).1 && fetches >= 1
    ensures AllGoesWell(l, s, fetches, |here| + writes) <==>
              AllGoesWell(l.(calls := l.calls + 1), Deliver(s, here).0, fetches - 1, writes)
  {
    DeliverMeans(s, here);
    var s1 := Deliver(s, here).0;
    assert s.Accepted(s.writes, s.writes + |here| + writes) <==> s1.Accepted(s1.writes, s1.writes + writes);
    assert l.Answered(l.calls, l.calls + fetches) <==> l.Answered(l.calls + 1, l.calls + fetches);
  }

  lemma GoesWrong(l: Logs, s: Sink, here: seq<Chunk>, fetches: nat, writes: nat)
    requires fetches >= 1 && (!l.answers(l.calls) || !Deliver(s, here).1)
    ensures !AllGoesWell(l, s, fetches, |here| + writes)
  {
    DeliverMeans(s, here);
  }

  function Flat(batches: seq<seq<Chunk>>): seq<Chunk> {
    if batches == [] then [] else batches[0] + Flat(batches[1..])
  }

  /** One fetch for each batch of chunks, then the end of file. */
  function Transfer(l: Logs, s: Sink, batches: seq<seq<Chunk>>): (Sink, bool)
    decreases |batches|
  {
    if batches == [] then s.Write(Eof)
    else if !l.answers(l.calls) then (s, false)
    else
      var (s1, ok) := Deliver(s, batches[0]);
      if !ok then (s1, false) else Transfer(l.(calls := l.calls + 1), s1, batches[1..])
  }

  lemma OnlyEof(l: Logs, s: Sink)
    ensures AllGoesWell(l, s, 0, 1) <==> s.accepts(s.writes)
    ensures Ended(Some(s.Write(Eof).1), s.chunks, s.Write(Eof).0.chunks, s.Write(Eof).1, [])
  {
    assert s.chunks + [] == s.chunks;
  }

  lemma AfterBatch(l: Logs, s: Sink, here: seq<Chunk>, there: seq<Chunk>, fetches: nat, after: (Sink, bool))
    requires l.answers(l.calls) && Deliver(s, here).1
    requires var (l1, s1) := (l.(calls := l.calls + 1), Deliver(s, here).0);
             Ended(Some(after.1), s1.chunks, after.0.chunks, AllGoesWell(l1, s1, fetches, |there| + 1), there)
    ensures Ended(Some(after.1), s.chunks, after.0.chunks, AllGoesWell(l, s, fetches + 1, |here + there| + 1), here + there)
  {
    var (l1, s1) := (l.(calls := l.calls + 1), Deliver(s, here).0);
    DeliverMeans(s, here);
    GoesOnWell(l, s, here, fetches + 1, |there| + 1);
    EndedEarlier(Some(after.1), s.chunks, s1.chunks, after.0.chunks, AllGoesWell(l1, s1, fetches, |there| + 1), here, there);
  }

  lemma {:induction false} TransferEnds(l: Logs, s: Sink, batches: seq<seq<Chunk>>)
    ensures var (s', ok) := Transfer(l, s, batches); var lines := Flat(batches);
            Ended(Some(ok), s.chunks, s'.chunks, AllGoesWell(l, s, |batches|, |lines| + 1), lines)
    decreases |batches|
  {
    if batches == [] {
      OnlyEof(l, s);
    } else {
      var (here, there) := (batches[0], Flat(batches[1..]));
      var (s1, ok) := Deliver(s, here);
      DeliverMeans(s, here);
      if l.answers(l.calls) && ok {
        TransferEnds(l.(calls := l.calls + 1), s1, batches[1..]);
        AfterBatch(l, s, here, there, |batches| - 1, Transfer(l, s, batches));
      } else {
        GoesWrong(l, s, here, |batches|, |there| + 1);
        Prefixes(s.chunks, Transfer(l, s, batches).0.chunks, here, there);
      }
    }
  }

  /** The chunks of the fetches from the k-th to the last, page by page. */
  function Batches(page: Paging, k: nat, end: nat): (r: seq<seq<Chunk>>)
    ensures |r| == if k > end then 0 else end + 1 - k
    decreases end + 1 - k
  {
    if k > end then [] else [Lines(PageAt(page, k).events)] + Batches(page, k + 1, end)
  }

  lemma {:induction false} FlatBatches(page: Paging, k: nat, end: nat)
    ensures Flat(Batches(page, k, end)) == Lines(Events(page, k, end))
    decreases end + 1 - k
  {
    if k <= end {
      var batches := Batches(page, k, end);
      assert batches[1..] == Batches(page, k + 1, end);
      FlatBatches(page, k + 1, end);
      LinesAppend(PageAt(page, k).events, Events(page, k + 1, end));
    }
  }

  lemma OneRound(l: Logs, s: Sink, k: nat, n: nat)
    requires n > 0 && !Stops(l.page, k)
    requires l.answers(l.calls) && Deliver(s, Lines(PageAt(l.page, k).events)).1
    ensures Pump(l, s, Token(l.page, k), n) ==
              Pump(l.(calls := l.calls + 1), Deliver(s, Lines(PageAt(l.page, k).events)).0, Token(l.page, k + 1), n - 1)
  {
  }

  lemma LastRound(l: Logs, s: Sink, k: nat, n: nat)
    requires n > 0
    ensures var (l', s', done) := Pump(l, s, Token(l.page, k), n);
            var (s1, ok) := Deliver(s, Lines(PageAt(l.page, k).events));
            && (!l.answers(l.calls) ==> (s', done) == (s, Some(false)))
            && (l.answers(l.calls) && !ok ==> (s', done) == (s1, Some(false)))
            && (l.answers(l.calls) && ok && Stops(l.page, k) ==> (s', done) == (s1.Write(Eof).0, Some(s1.Write(Eof).1)))
  {
  }

  /** The pump makes exactly the fetches up to the service's first stop. */
  lemma {:induction false} PumpTransfers(l: Logs, s: Sink, k: nat, n: nat, end: nat)
    requires FirstStop(l.page, k, end) && end < k + n
    ensures var (_, s', done) := Pump(l, s, Token(l.page, k), n);
            (s', done) == (Transfer(l, s, Batches(l.page, k, end)).0, Some(Transfer(l, s, Batches(l.page, k, end)).1))
    decreases n
  {
    var batches := Batches(l.page, k, end);
    var (s1, ok) := Deliver(s, Lines(PageAt(l.page, k).events));
    assert batches[0] == Lines(PageAt(l.page, k).events) && batches[1..] == Batches(l.page, k + 1, end);
    if l.answers(l.calls) && ok && !Stops(l.page, k) {
      OneRound(l, s, k, n);
      PumpTransfers(l.(calls := l.calls + 1), s1, k + 1, n - 1, end);
    } else {
      LastRound(l, s, k, n);
    }
  }

  /** Against a service that stops, the pump ends. It succeeds exactly when every fetch is
      answered and every write accepted; then the sink has every non-empty message of every
      page once, in order, and one end of file after them. Otherwise it has a prefix of the
      messages and no end of file. */
  lemma PumpDelivers(l: Logs, s: Sink, end: nat, n: nat)
    requires FirstStop(l.page, 0, end) && n > end
    ensures var (_, s', done) := Pump(l, s, None, n);
            var lines := Lines(Events(l.page, 0, end));
            Ended(done, s.chunks, s'.chunks, AllGoesWell(l, s, end + 1, |lines| + 1), lines)
  {
    PumpTransfers(l, s, 0, n, end);
    TransferEnds(l, s, Batches(l.page, 0, end));
    FlatBatches(l.page, 0, end);
  }

  /** What a sink has been given: the text of every non-empty message and one end of file, or
      the text of the first of them. */
  ghost predicate GotText(done: bool, before: seq<Chunk>, after: seq<Chunk>, msgs: seq<string>) {
    && before <= after
    && var added := after[|before|..];
       if done then added != [] && added[|added| - 1] == Eof && |added| == |msgs| + 1 && DeliversFirst(added[..|msgs|], msgs)
       else DeliversFirst(added, msgs)
  }

  lemma EndedGotText(done: Option<bool>, before: seq<Chunk>, after: seq<Chunk>, all: bool, events: seq<string>)
    requires Ended(done, before, after, all, Lines(events))
    ensures GotText(all, before, after, NonEmpty(events))
  {
    LinesDeliver(events);
    var lines := Lines(events);
    var added := after[|before|..];
    if all {
      assert after == before + (lines + [Eof]);
      assert added == lines + [Eof] && added[..|lines|] == lines;
    } else {
      assert added <= lines;
    }
  }

  /** So the text that arrives is that of the messages. */
  lemma TextDelivered(l: Logs, s: Sink, end: nat, n: nat)
    requires FirstStop(l.page, 0, end) && n > end
    ensures var (_, s', done) := Pump(l, s, None, n);
            done.Some? && GotText(done.value, s.chunks, s'.chunks, NonEmpty(Events(l.page, 0, end)))
  {
    PumpDelivers(l, s, end, n);
    var (_, s', done) := Pump(l, s, None, n);
    EndedGotText(done, s.chunks, s'.chunks, done.value, Events(l.page, 0, end));
  }

  /** What keeps a pump running: the service does not stop for the next `n` fetches from the
      k-th on, and answers them, and the sink accepts whatever is written. */
  predicate RunsOn(l: Logs, s: Sink, k: nat, n: nat)
    decreases n
  {
    n == 0 ||
    (&& !Stops(l.page, k) && l.answers(l.calls) && Deliver(s, Lines(PageAt(l.page, k).events)).1
     && RunsOn(l.(calls := l.calls + 1), Deliver(s, Lines(PageAt(l.page, k).events)).0, k + 1, n - 1))
  }

  /** After any number of rounds the pump has no verdict exactly when nothing has stopped or
      broken it so far. */
  lemma {:induction false} PumpRunsOnIff(l: Logs, s: Sink, k: nat, n: nat)
    ensures Pump(l, s, Token(l.page, k), n).2.None? <==> RunsOn(l, s, k, n)
    decreases n
  {
    if n > 0 {
      var s1 := Deliver(s, Lines(PageAt(l.page, k).events)).0;
      RoundVerdict(l, s, k, n);
      PumpRunsOnIff(l.(calls := l.calls + 1), s1, k + 1, n - 1);
    }
  }

  lemma RoundVerdict(l: Logs, s: Sink, k: nat, n: nat)
    requires n > 0
    ensures var (s1, ok) := Deliver(s, Lines(PageAt(l.page, k).events));
            Pump(l, s, Token(l.page, k), n).2.None? <==>
            && l.answers(l.calls) && ok && !Stops(l.page, k)
            && Pump(l.(calls := l.calls + 1), s1, Token(l.page, k + 1), n - 1).2.None?
  {
  }

  /** So a pump that nothing breaks ends if and only if the service stops. */
  lemma PumpEndsIff(l: Logs, s: Sink)
    requires NothingBreaks(l, s)
    ensures (exists n: nat :: Pump(l, s, None, n).2.Some?) <==> exists end: nat :: Stops(l.page, end)
  {
    if n: nat :| Pump(l, s, None, n).2.Some? {
      PumpRunsOnIff(l, s, 0, n);
      var _ := SomeStop(l, s, 0, n);
    }
    if end: nat :| Stops(l.page, end) {
      PumpRunsOnIff(l, s, 0, end + 1);
      StopEnds(l, s, 0, end + 1, end);
    }
  }

  ghost predicate NothingBreaks(l: Logs, s: Sink) { (forall i :: l.answers(i)) && (forall i :: s.accepts(i)) }

  lemma NothingBreaksAgain(l: Logs, s: Sink, chunks: seq<Chunk>)
    requires NothingBreaks(l, s)
    ensures l.answers(l.calls) && Deliver(s, chunks).1
    ensures NothingBreaks(l.(calls := l.calls + 1), Deliver(s, chunks).0)
  {
    DeliverMeans(s, chunks);
  }

  lemma {:induction false} SomeStop(l: Logs, s: Sink, k: nat, n: nat) returns (j: nat)
    requires NothingBreaks(l, s) && !RunsOn(l, s, k, n)
    ensures Stops(l.page, j)
    decreases n
  {
    var here := Lines(PageAt(l.page, k).events);
    NothingBreaksAgain(l, s, here);
    if Stops(l.page, k) {
      j := k;
    } else {
      j := SomeStop(l.(calls := l.calls + 1), Deliver(s, here).0, k + 1, n - 1);
    }
  }

  lemma {:induction false} StopEnds(l: Logs, s: Sink, k: nat, n: nat, end: nat)
    requires Stops(l.page, end) && k <= end < k + n
    ensures !RunsOn(l, s, k, n)
    decreases n
  {
    if k < end {
      StopEnds(l.(calls := l.calls + 1), Deliver(s, Lines(PageAt(l.page, k).events)).0, k + 1, n - 1, end);
    }
  }

  /* ----- finite logs ----- */

  /** A log in pages, with distinct tokens until the last page, which has none or the one it
      was asked for by. */
  predicate WellPaged(log: seq<Page>) {
    && log != []
    && (forall k | 0 <= k < |log| - 1 :: log[k].next.Some?)
    && (forall j, k | 0 <= j < k < |log| - 1 :: log[j].next != log[k].next)
    && (log[|log| - 1].next.None? || (|log| >= 2 && log[|log| - 1].next == log[|log| - 2].next))
  }

  function AfterToken(log: seq<Page>, token: Option<string>): Page {
    if |log| < 2 then Page([], None)
    else if log[0].next == token then log[1]
    else AfterToken(log[1..], token)
  }

  function PagingOf(log: seq<Page>): Paging
    requires log != []
  {
    (token: Option<string>) => if token.None? then log[0] else AfterToken(log, token)
  }

  lemma {:induction false} AfterTokenAt(log: seq<Page>, k: nat)
    requires k < |log| - 1 && forall j | 0 <= j < k :: log[j].next != log[k].next
    ensures AfterToken(log, log[k].next) == log[k + 1]
  {
    if k > 0 {
      assert log[0].next != log[k].next;
      AfterTokenAt(log[1..], k - 1);
    }
  }

  lemma {:induction false} FiniteLogPages(log: seq<Page>, k: nat)
    requires WellPaged(log) && k < |log|
    ensures Token(PagingOf(log), k) == if k == 0 then None else log[k - 1].next
    ensures PageAt(PagingOf(log), k) == log[k]
  {
    if k > 0 {
      FiniteLogPages(log, k - 1);
      AfterTokenAt(log, k - 1);
    }
  }

  function AllEvents(log: seq<Page>): seq<string> {
    if log == [] then [] else log[0].events + AllEvents(log[1..])
  }

  lemma {:induction false} FiniteLogEvents(log: seq<Page>, k: nat)
    requires WellPaged(log) && k <= |log|
    ensures Events(PagingOf(log), k, |log| - 1) == AllEvents(log[k..])
    decreases |log| - k
  {
    if k < |log| {
      FiniteLogPages(log, k);
      FiniteLogEvents(log, k + 1);
      assert log[k..][1..] == log[k + 1..];
    }
  }

  /** A finite log stops at its last page, so the pump delivers the whole log however it is
      cut into pages. */
  lemma FiniteLogDelivered(log: seq<Page>, s: Sink, answers: nat -> bool, calls: nat)
    requires WellPaged(log)
    ensures FirstStop(PagingOf(log), 0, |log| - 1)
    ensures var l := Logs(PagingOf(log), answers, calls);
            var (_, s', done) := Pump(l, s, None, |log|);
            var lines := Lines(AllEvents(log));
            Ended(done, s.chunks, s'.chunks, AllGoesWell(l, s, |log|, |lines| + 1), lines)
  {
    var page := PagingOf(log);
    forall k: nat | k < |log| ensures Stops(page, k) <==> k == |log| - 1 {
      FiniteLogPages(log, k);
      assert k < |log| - 1 && k > 0 ==> log[k - 1].next != log[k].next;
    }
    FirstStopIs(page, 0, |log| - 1);
    PumpDelivers(Logs(page, answers, calls), s, |log| - 1, |log|);
    FiniteLogEvents(log, 0);
    assert log[0..] == log;
  }

  /** And so the pump delivers a finite log's text, whatever the pages. */
  lemma LogTextDelivered(log: seq<Page>, s: Sink, answers: nat -> bool, calls: nat)
    requires WellPaged(log)
    ensures var (_, s', done) := Pump(Logs(PagingOf(log), answers, calls), s, None, |log|);
            done.Some? && GotText(done.value, s.chunks, s'.chunks, NonEmpty(AllEvents(log)))
  {
    FiniteLogDelivered(log, s, answers, calls);
    var (_, s', done) := Pump(Logs(PagingOf(log), answers, calls), s, None, |log|);
    EndedGotText(done, s.chunks, s'.chunks, done.value, AllEvents(log));
  }
}
