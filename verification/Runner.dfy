/** Fetching a job's logs, as the source writes it: a loop over a client and a sink. */
module Runner {
  import opened Wrappers
  import opened JobLogs

  class LogsClient {
    var logs: Logs

    constructor (logs: Logs)
      ensures this.logs == logs
    {
      this.logs := logs;
    }

    method GetLogEvents(token: Option<string>) returns (page: Option<Page>)
      modifies this
      ensures (logs, page) == old(logs).Get(token)
    {
      page := logs.Get(token).1;
      logs := logs.Get(token).0;
    }
  }

  class LogCaptureSink {
    var sink: Sink

    constructor (sink: Sink)
      ensures this.sink == sink
    {
      this.sink := sink;
    }

    method WriteLogChunk(chunk: Chunk) returns (ok: bool)
      modifies this
      ensures (sink, ok) == old(sink).Write(chunk)
    {
      ok := sink.Write(chunk).1;
      sink := sink.Write(chunk).0;
    }
  }

  function Entry(metadata: map<string, string>, key: string): string {
    if key in metadata then metadata[key] else ""
  }

  predicate HasStream(metadata: map<string, string>) {
    Entry(metadata, "log_group") != "" && Entry(metadata, "log_stream") != ""
  }

  class JobRunner {
    const client: LogsClient?

    constructor (client: LogsClient?)
      ensures this.client == client
    {
      this.client := client;
    }

    /** Writes a message, newline-terminated, unless it is empty. */
    method WriteOne(msg: string, out: LogCaptureSink) returns (ok: bool)
      modifies out
      ensures (out.sink, ok) == if msg == "" then (old(out.sink), true) else old(out.sink).Write(Data(Terminated(msg)))
    {
      if msg == "" { return true; }
      var line := msg;
      if msg[|msg| - 1] != '\n' { line := msg + "\n"; }
      ok := out.WriteLogChunk(Data(line));
    }

    method WriteEach(events: seq<string>, out: LogCaptureSink) returns (ok: bool)
      modifies out
      ensures (out.sink, ok) == Deliver(old(out.sink), Lines(events))
    {
      ghost var goal := Deliver(out.sink, Lines(events));
      var i := 0;
      assert events[0..] == events;
      while i < |events|
        invariant 0 <= i <= |events|
        invariant goal == Deliver(out.sink, Lines(events[i..]))
      {
        LinesStep(events, i);
        DeliverStep(out.sink, Data(Terminated(events[i])), Lines(events[i + 1..]));
        ok := WriteOne(events[i], out);
        if !ok { return; }
        i := i + 1;
      }
      return true;
    }

    /** The paging loop, for a run that ends within `n` rounds: it has no other bound. */
    method PumpPages(out: LogCaptureSink, ghost n: nat) returns (ok: bool)
      requires client != null && Pump(client.logs, out.sink, None, n).2.Some?
      modifies client, out
      ensures old(Pump(client.logs, out.sink, None, n)) == (client.logs, out.sink, Some(ok))
    {
      ghost var goal := Pump(client.logs, out.sink, None, n);
      ghost var rounds: int := n;
      var nextToken: Option<string> := None;
      while true
        invariant 0 <= rounds && goal.2.Some? && goal == Pump(client.logs, out.sink, nextToken, rounds)
        decreases rounds
      {
        var page := client.GetLogEvents(nextToken);
        if page.None? { return false; }
        ok := WriteEach(page.value.events, out);
        if !ok { return; }
        if page.value.next.None? || (nextToken.Some? && page.value.next == nextToken) { break; }
        nextToken := page.value.next;
        rounds := rounds - 1;
      }
      ok := out.WriteLogChunk(Eof);
    }

    /** Pumps the log into `out`. A log that is fetched must be one whose pump ends. */
    method JobLogs(metadata: map<string, string>, out: LogCaptureSink?) returns (ok: bool)
      requires client != null && out != null && HasStream(metadata) ==>
                 exists n: nat :: Pump(client.logs, out.sink, None, n).2.Some?
      modifies client, out
      ensures client == null ==> !ok
      ensures client != null && out == null ==> ok
      ensures client == null && out != null ==> unchanged(out)
      ensures client != null && out == null ==> unchanged(client)
      ensures client != null && out != null ==>
                if !HasStream(metadata)
                then unchanged(client) && (out.sink, ok) == old(out.sink).Write(Eof)
                else exists n: nat :: old(Pump(client.logs, out.sink, None, n)) == (client.logs, out.sink, Some(ok))
    {
      if client == null { return false; }
      if out == null { return true; }
      var group, stream := Entry(metadata, "log_group"), Entry(metadata, "log_stream");
      if group == "" || stream == "" {
        ok := out.WriteLogChunk(Eof);
        return;
      }
      ghost var n: nat :| Pump(client.logs, out.sink, None, n).2.Some?;
      ok := PumpPages(out, n);
    }
  }
}
