/**
 Log delivery: the capture of new lines behind a cursor, the ring per container,
 and the bounded queue of lines waiting to be uploaded.
 */
module LogDelivery {
  import opened Wrappers
  import opened Sequences

  datatype LogLine = LogLine(ts: nat, text: string)

  // ------------------------------------------------------------- the capture

  /** The lines newer than the cursor, in order. */
  function Newer(lines: seq<LogLine>, cursor: nat): (r: seq<LogLine>) {
    if lines == [] then []
    else
      var last := lines[|lines| - 1];
      Newer(lines[..|lines| - 1], cursor) + if last.ts > cursor then [last] else []
  }

  lemma {:induction false} NewerHolds(lines: seq<LogLine>, cursor: nat)
    ensures forall l :: l in Newer(lines, cursor) <==> l in lines && l.ts > cursor
  {
    if lines != [] {
      var init, last := lines[..|lines| - 1], lines[|lines| - 1];
      NewerHolds(init, cursor);
      assert lines == init + [last];
    }
  }

  lemma NewerGrows(lines: seq<LogLine>, line: LogLine, cursor: nat)
    ensures Newer(lines + [line], cursor) == if line.ts > cursor then Newer(lines, cursor) + [line] else Newer(lines, cursor)
  {
    assert (lines + [line])[..|lines|] == lines;
  }

  lemma {:induction false} NewerConcat(a: seq<LogLine>, b: seq<LogLine>, cursor: nat)
    ensures Newer(a + b, cursor) == Newer(a, cursor) + Newer(b, cursor)
  {
    if b == [] {
      assert a + b == a;
    } else {
      var init, last := b[..|b| - 1], b[|b| - 1];
      NewerConcat(a, init, cursor);
      assert (a + b)[..|a + b| - 1] == a + init && (a + b)[|a + b| - 1] == last;
    }
  }

  lemma {:induction false} AllNewer(lines: seq<LogLine>, cursor: nat)
    requires forall l :: l in lines ==> l.ts > cursor
    ensures Newer(lines, cursor) == lines
  {
    if lines != [] {
      hide Newer;
      var init, last := lines[..|lines| - 1], lines[|lines| - 1];
      assert lines == init + [last];
      assert last in lines;
      AllNewer(init, cursor);
      NewerGrows(init, last, cursor);
    }
  }

  lemma NewerOfNext(lines: seq<LogLine>, i: nat, next: nat, cursor: nat)
    requires next == i + 1 <= |lines|
    ensures Newer(lines[..next], cursor) == if lines[i].ts > cursor then Newer(lines[..i], cursor) + [lines[i]] else Newer(lines[..i], cursor)
  {
    assert lines[..next] == lines[..i] + [lines[i]];
    NewerGrows(lines[..i], lines[i], cursor);
  }

  /** Filters the parsed output in place: the kept lines move to the front of its own buffer. */
  method AcceptTail(lines: array<LogLine>, cursor: nat) returns (kept: nat)
    modifies lines
    ensures kept <= lines.Length && lines[..kept] == Newer(old(lines[..]), cursor)
  {
    ghost var was := lines[..];
    kept := 0;
    var i := 0;
    while i < lines.Length
      invariant kept <= i <= lines.Length
      invariant forall k :: i <= k < lines.Length ==> lines[k] == was[k]
      invariant lines[..kept] == Newer(was[..i], cursor)
    {
      var line, next := lines[i], i + 1;
      NewerOfNext(was, i, next, cursor);
      if line.ts > cursor {
        ghost var front := lines[..kept];
        lines[kept] := line;
        assert lines[..kept + 1] == front + [line];
        kept := kept + 1;
      }
      i := next;
    }
    assert was[..i] == was;
  }

  function Latest(lines: seq<LogLine>, cursor: nat): (r: nat)
    ensures r >= cursor && forall l :: l in lines ==> l.ts <= r
    ensures r == cursor || exists l :: l in lines && l.ts == r
  {
    if lines == [] then cursor
    else
      var init, last := lines[..|lines| - 1], lines[|lines| - 1];
      assert lines == init + [last];
      var r := Latest(init, cursor);
      if last.ts > r then last.ts else r
  }

  lemma LatestGrows(lines: seq<LogLine>, line: LogLine, cursor: nat)
    ensures Latest(lines + [line], cursor) == if line.ts > Latest(lines, cursor) then line.ts else Latest(lines, cursor)
  {
    assert (lines + [line])[..|lines|] == lines;
  }

  /** Appends the lines one by one; the cursor follows the newest timestamp. */
  method Extended(tail: LogTail, lines: seq<LogLine>) returns (all: seq<LogLine>, last: nat)
    ensures all == tail.lines + lines && last == Latest(lines, tail.lastTs)
  {
    all, last := tail.lines, tail.lastTs;
    var i := 0;
    while i < |lines|
      invariant 0 <= i <= |lines|
      invariant all == tail.lines + lines[..i] && last == Latest(lines[..i], tail.lastTs)
    {
      assert lines[..i + 1] == lines[..i] + [lines[i]];
      LatestGrows(lines[..i], lines[i], tail.lastTs);
      all := all + [lines[i]];
      if lines[i].ts > last {
        last := lines[i].ts;
      }
      i := i + 1;
    }
    assert lines[..i] == lines;
  }

  const RING_LINES := 1000
  const DEFAULT_SNAPSHOT := 200

  datatype LogTail = LogTail(lines: seq<LogLine>, lastTs: nat)

  /** The rings of all containers; a time of 0 stands for nothing captured yet. */
  class ContainerLogStore {
    var tails: map<string, LogTail>

    ghost predicate Valid()
      reads this
    {
      forall id :: id in tails ==> |tails[id].lines| <= RING_LINES
    }

    constructor ()
      ensures Valid() && tails == map[]
    {
      tails := map[];
    }

    method Append(id: string, lines: seq<LogLine>)
      requires Valid()
      modifies this
      ensures Valid()
      ensures lines == [] ==> tails == old(tails)
      ensures lines != [] ==> tails == old(tails)[id := AfterAppend(TailOf(old(tails), id), lines)]
      ensures lines != [] ==>
                var all := (if id in old(tails) then old(tails)[id].lines else []) + lines;
                |tails[id].lines| == Min(|all|, 1000) && tails[id].lines == all[|all| - |tails[id].lines|..]
    {
      if lines == [] {
        return;
      }
      var tail := TailOf(tails, id);
      var all, last := Extended(tail, lines);
      if |all| > RING_LINES {
        all := all[|all| - RING_LINES..];
      }
      tails := tails[id := LogTail(all, last)];
    }

    function Cursor(id: string): nat
      reads this
    {
      TailOf(tails, id).lastTs
    }

    method Snapshot(id: string, limit: int) returns (r: seq<LogLine>)
      requires Valid()
      ensures r == Tail(TailOf(tails, id).lines, if 0 < limit <= RING_LINES then limit else DEFAULT_SNAPSHOT)
      ensures id !in tails ==> r == []
      ensures id in tails ==>
                && |r| == Min(|tails[id].lines|, if 0 < limit <= 1000 then limit else 200)
                && r == tails[id].lines[|tails[id].lines| - |r|..]
    {
      var n := limit;
      if n <= 0 || n > RING_LINES {
        n := DEFAULT_SNAPSHOT;
      }
      if id !in tails {
        return [];
      }
      r := tails[id].lines;
      if |r| > n {
        r := r[|r| - n..];
      }
    }

    /** One tick for one container: what the runtime printed is filtered behind the cursor and appended. */
    method Capture(id: string, output: array<LogLine>) returns (batch: seq<LogLine>)
      requires Valid()
      modifies this, output
      ensures Valid()
      ensures batch == Newer(old(output[..]), old(Cursor(id)))
      ensures Cursor(id) == Latest(batch, old(Cursor(id)))
      ensures TailOf(tails, id).lines == Tail(old(TailOf(tails, id).lines) + batch, RING_LINES)
      ensures forall other :: other != id ==> TailOf(tails, other) == old(TailOf(tails, other))
    {
      var kept := AcceptTail(output, Cursor(id));
      batch := output[..kept];
      Append(id, batch);
      if batch == [] {
        assert old(TailOf(tails, id).lines) + batch == old(TailOf(tails, id).lines);
      }
    }
  }

  function TailOf(tails: map<string, LogTail>, id: string): LogTail {
    if id in tails then tails[id] else LogTail([], 0)
  }

  function AfterAppend(tail: LogTail, lines: seq<LogLine>): LogTail {
    LogTail(Tail(tail.lines + lines, RING_LINES), Latest(lines, tail.lastTs))
  }

  // ------------------------------------------------------ captures over a run

  /** What a container's ring and cursor are after a run of ticks, and what each tick captured. */
  datatype Run = Run(tail: LogTail, batches: seq<seq<LogLine>>)

  function Ticks(outputs: seq<seq<LogLine>>): Run {
    if outputs == [] then Run(LogTail([], 0), [])
    else
      var before := Ticks(outputs[..|outputs| - 1]);
      var batch := Newer(outputs[|outputs| - 1], before.tail.lastTs);
      Run(AfterAppend(before.tail, batch), before.batches + [batch])
  }

  function Flat(batches: seq<seq<LogLine>>): seq<LogLine> {
    if batches == [] then [] else Flat(batches[..|batches| - 1]) + batches[|batches| - 1]
  }

  /** The ring is always the newest lines of all that was captured. */
  lemma {:induction false} RingIsTheTail(outputs: seq<seq<LogLine>>)
    ensures Ticks(outputs).tail.lines == Tail(Flat(Ticks(outputs).batches), RING_LINES)
  {
    if outputs != [] {
      var init := outputs[..|outputs| - 1];
      RingIsTheTail(init);
      var before, now := Ticks(init), Ticks(outputs);
      var batch := now.batches[|before.batches|];
      assert now.batches[..|before.batches|] == before.batches;
      TailOfTail(Flat(before.batches), batch, RING_LINES);
    }
  }

  /** The cursor never moves back, whatever the runtime prints. */
  lemma CursorAdvances(outputs: seq<seq<LogLine>>, next: seq<LogLine>)
    ensures Ticks(outputs).tail.lastTs <= Ticks(outputs + [next]).tail.lastTs
  {
    assert (outputs + [next])[..|outputs|] == outputs;
  }

  /** The cursor is at or past every captured line, and a captured line is past the cursor its tick started from. */
  lemma {:induction false} CursorBounds(outputs: seq<seq<LogLine>>, i: nat, line: LogLine)
    requires i < |outputs|
    ensures |Ticks(outputs).batches| == |outputs|
    ensures line in Ticks(outputs).batches[i] ==> Ticks(outputs[..i]).tail.lastTs < line.ts <= Ticks(outputs).tail.lastTs
    decreases |outputs|
  {
    var init := outputs[..|outputs| - 1];
    BatchCount(outputs);
    if i < |outputs| - 1 {
      CursorBounds(init, i, line);
      assert init[..i] == outputs[..i];
      BatchCount(init);
    } else {
      assert outputs[..i] == init;
      BatchCount(init);
      NewerHolds(outputs[i], Ticks(init).tail.lastTs);
    }
  }

  lemma {:induction false} BatchCount(outputs: seq<seq<LogLine>>)
    ensures |Ticks(outputs).batches| == |outputs|
  {
    if outputs != [] {
      BatchCount(outputs[..|outputs| - 1]);
    }
  }

  lemma {:induction false} CursorNeverBack(outputs: seq<seq<LogLine>>, i: nat)
    requires i <= |outputs|
    ensures Ticks(outputs[..i]).tail.lastTs <= Ticks(outputs).tail.lastTs
    decreases |outputs|
  {
    if i == |outputs| {
      assert outputs[..i] == outputs;
    } else {
      var init := outputs[..|outputs| - 1];
      assert outputs == init + [outputs[|outputs| - 1]] && init[..i] == outputs[..i];
      CursorAdvances(init, outputs[|outputs| - 1]);
      CursorNeverBack(init, i);
    }
  }

  /** A line of a later tick is newer than every line of an earlier one: nothing is captured twice. */
  lemma CapturesAdvance(outputs: seq<seq<LogLine>>, i: nat, j: nat, a: LogLine, b: LogLine)
    requires i < j < |outputs|
    requires |Ticks(outputs).batches| == |outputs| && a in Ticks(outputs).batches[i] && b in Ticks(outputs).batches[j]
    ensures a.ts < b.ts
  {
    CursorBounds(outputs, j, b);
    var some := outputs[..j];
    BatchPrefix(outputs, j, i);
    CursorBounds(some, i, a);
  }

  lemma {:induction false} BatchPrefix(outputs: seq<seq<LogLine>>, n: nat, i: nat)
    requires i < n <= |outputs|
    ensures |Ticks(outputs).batches| == |outputs| && |Ticks(outputs[..n]).batches| == n
    ensures Ticks(outputs[..n]).batches[i] == Ticks(outputs).batches[i]
    decreases |outputs|
  {
    BatchCount(outputs);
    BatchCount(outputs[..n]);
    if n == |outputs| {
      assert outputs[..n] == outputs;
    } else {
      var init := outputs[..|outputs| - 1];
      assert init[..n] == outputs[..n];
      BatchPrefix(init, n, i);
    }
  }

  // ---------------------------------------------------------- the host's own log

  ghost predicate InTimeOrder(log: seq<LogLine>) {
    forall i, j :: 0 <= i < j < |log| ==> log[i].ts <= log[j].ts
  }

  /** What the runtime prints: a backfill at first, then everything since the cursor, its own timestamp included. */
  function PrintedSince(log: seq<LogLine>, cursor: nat): seq<LogLine> {
    if cursor == 0 then Tail(log, BACKFILL) else Newer(log, cursor - 1)
  }

  const BACKFILL := 200

  lemma {:induction false} NewerOfSince(log: seq<LogLine>, cursor: nat)
    requires cursor > 0
    ensures Newer(Newer(log, cursor - 1), cursor) == Newer(log, cursor)
  {
    if log != [] {
      var init, last := log[..|log| - 1], log[|log| - 1];
      NewerOfSince(init, cursor);
      assert log == init + [last];
      NewerGrows(init, last, cursor - 1);
      NewerGrows(init, last, cursor);
      if last.ts > cursor - 1 {
        NewerGrows(Newer(init, cursor - 1), last, cursor);
      }
    }
  }

  lemma {:induction false} NoneNewer(lines: seq<LogLine>, cursor: nat)
    requires forall l :: l in lines ==> l.ts <= cursor
    ensures Newer(lines, cursor) == []
  {
    if lines != [] {
      var init, last := lines[..|lines| - 1], lines[|lines| - 1];
      NoneNewer(init, cursor);
      assert last in lines;
    }
  }

  /**
   One tick on a log that grew from m lines, with the cursor on the newest of the
   first m: exactly the new lines are captured, if and only if the first of them
   has a timestamp of its own. New lines that share the cursor's are lost.
   */
  lemma TickCapturesTheNewLines(log: seq<LogLine>, m: nat, cursor: nat)
    requires InTimeOrder(log) && 0 < m <= |log| && cursor == log[m - 1].ts && cursor > 0
    ensures Newer(PrintedSince(log, cursor), cursor) == log[m..] <==> m == |log| || log[m].ts > cursor
  {
    hide Newer, InTimeOrder;
    NewerOfSince(log, cursor);
    var seen, arrived := log[..m], log[m..];
    assert log == seen + arrived;
    NewerConcat(seen, arrived, cursor);
    CutInOrder(log, m);
    NoneNewer(seen, cursor);
    assert [] + Newer(arrived, cursor) == Newer(arrived, cursor);
    ArrivedLines(arrived, cursor);
  }

  lemma CutInOrder(log: seq<LogLine>, m: nat)
    requires InTimeOrder(log) && 0 < m <= |log|
    ensures InTimeOrder(log[m..]) && forall l :: l in log[..m] ==> l.ts <= log[m - 1].ts
  {
    forall l | l in log[..m]
      ensures l.ts <= log[m - 1].ts
    {
      var i :| 0 <= i < m && log[i] == l;
    }
  }

  lemma ArrivedLines(arrived: seq<LogLine>, cursor: nat)
    requires InTimeOrder(arrived)
    ensures Newer(arrived, cursor) == arrived <==> arrived == [] || arrived[0].ts > cursor
  {
    NewerHolds(arrived, cursor);
    if arrived != [] {
      if arrived[0].ts > cursor {
        AllNewer(arrived, cursor);
      } else {
        assert arrived[0] in arrived && arrived[0] !in Newer(arrived, cursor);
      }
    }
  }

  /** The k-th tick sees the first lengths[k] lines of the log, which only grows. */
  ghost predicate Sees(lengths: seq<nat>, log: seq<LogLine>) {
    && (forall i :: 0 <= i < |lengths| ==> lengths[i] <= |log|)
    && forall i, j :: 0 <= i < j < |lengths| ==> lengths[i] <= lengths[j]
  }

  function LastSeen(lengths: seq<nat>): nat {
    if lengths == [] then 0 else lengths[|lengths| - 1]
  }

  ghost function HostRun(log: seq<LogLine>, lengths: seq<nat>): Run
    requires Sees(lengths, log)
  {
    if lengths == [] then Run(LogTail([], 0), [])
    else
      var before := HostRun(log, lengths[..|lengths| - 1]);
      var cursor := before.tail.lastTs;
      var batch := Newer(PrintedSince(log[..LastSeen(lengths)], cursor), cursor);
      Run(AfterAppend(before.tail, batch), before.batches + [batch])
  }

  ghost predicate OwnTimes(log: seq<LogLine>) {
    && (forall i :: 0 <= i < |log| ==> log[i].ts > 0)
    && forall i, j :: 0 <= i < j < |log| ==> log[i].ts < log[j].ts
  }

  function BackfillOf(n: nat): (r: nat)
    ensures r <= n
  {
    if n <= BACKFILL then 0 else n - BACKFILL
  }

  /** Where the capture starts: the backfill of the first tick that saw a line. */
  ghost function CaptureStart(log: seq<LogLine>, lengths: seq<nat>): (r: nat)
    requires Sees(lengths, log)
    ensures r <= LastSeen(lengths) <= |log|
  {
    if lengths == [] then 0
    else
      var init := lengths[..|lengths| - 1];
      if LastSeen(init) > 0 then CaptureStart(log, init) else BackfillOf(LastSeen(lengths))
  }

  /**
   With a timestamp of its own on every line, a run captures the host's log from
   the backfill on, each line once, in order, up to what the last tick saw.
   */
  lemma {:induction false} EveryLineOnce(log: seq<LogLine>, lengths: seq<nat>)
    requires OwnTimes(log) && Sees(lengths, log)
    ensures var run, seen := HostRun(log, lengths), LastSeen(lengths);
            && Flat(run.batches) == log[CaptureStart(log, lengths)..seen]
            && run.tail.lastTs == CursorAt(log, seen)
  {
    if lengths != [] {
      var init, n := lengths[..|lengths| - 1], LastSeen(lengths);
      EveryLineOnce(log, init);
      var before, m := HostRun(log, init), LastSeen(init);
      var batch := Newer(PrintedSince(log[..n], before.tail.lastTs), before.tail.lastTs);
      NextBatch(log, m, n);
      NextCursor(log, m, n);
      NextCapture(before.batches, batch, log, CaptureStart(log, init), m, n);
    }
  }

  lemma NextCursor(log: seq<LogLine>, m: nat, n: nat)
    requires OwnTimes(log) && m <= n <= |log|
    ensures Latest(log[(if m == 0 then BackfillOf(n) else m)..n], CursorAt(log, m)) == CursorAt(log, n)
  {
    LatestOf(log, if m == 0 then BackfillOf(n) else m, n, CursorAt(log, m));
  }

  function CursorAt(log: seq<LogLine>, seen: nat): nat
    requires seen <= |log|
  {
    if seen == 0 then 0 else log[seen - 1].ts
  }

  lemma NextCapture(batches: seq<seq<LogLine>>, batch: seq<LogLine>, log: seq<LogLine>, from: nat, m: nat, n: nat)
    requires from <= m <= n <= |log| && Flat(batches) == log[from..m]
    requires batch == log[(if m == 0 then BackfillOf(n) else m)..n]
    ensures Flat(batches + [batch]) == log[(if m == 0 then BackfillOf(n) else from)..n]
  {
    LastBatch(batches, batch);
  }

  lemma LastBatch(batches: seq<seq<LogLine>>, batch: seq<LogLine>)
    ensures Flat(batches + [batch]) == Flat(batches) + batch
  {
    assert (batches + [batch])[..|batches|] == batches;
  }

  lemma NextBatch(log: seq<LogLine>, m: nat, n: nat)
    requires OwnTimes(log) && m <= n <= |log|
    ensures Newer(PrintedSince(log[..n], CursorAt(log, m)), CursorAt(log, m)) == log[(if m == 0 then BackfillOf(n) else m)..n]
  {
    var some := log[..n];
    if m == 0 {
      assert Tail(some, BACKFILL) == log[BackfillOf(n)..n];
      AllNewer(Tail(some, BACKFILL), 0);
    } else {
      TickCapturesTheNewLines(some, m, log[m - 1].ts);
      assert some[m..] == log[m..n];
    }
  }

  lemma LatestOf(log: seq<LogLine>, m: nat, n: nat, cursor: nat)
    requires OwnTimes(log) && m <= n <= |log| && (m < n ==> cursor < log[n - 1].ts)
    ensures Latest(log[m..n], cursor) == if m == n then cursor else log[n - 1].ts
  {
    var some := log[m..n];
    if m < n {
      assert some[|some| - 1] == log[n - 1];
      assert log[n - 1] in some;
    }
  }

  // ------------------------------------------------------------ the upload queue

  datatype Entry = Entry(container: string, ts: nat, text: string)

  const QUEUE_CAP := 5000

  function Entries(container: string, lines: seq<LogLine>): (r: seq<Entry>)
    ensures |r| == |lines|
    ensures forall i :: 0 <= i < |r| ==> r[i] == Entry(container, lines[i].ts, lines[i].text)
  {
    if lines == [] then []
    else Entries(container, lines[..|lines| - 1])
         + [Entry(container, lines[|lines| - 1].ts, lines[|lines| - 1].text)]
  }

  /** Whether a flush is due, and how many lines it takes. */
  datatype FlushCall = FlushCall(enabled: bool, connected: bool, interval: nat, maxLines: int, now: nat, published: bool)

  predicate Due(call: FlushCall, pending: seq<Entry>, lastTry: Option<nat>) {
    && call.enabled && call.connected && call.maxLines > 0 && pending != []
    && (lastTry.Some? ==> call.now - lastTry.value >= call.interval)
  }

  function BatchSize(call: FlushCall, pending: seq<Entry>): nat
    requires call.maxLines > 0
  {
    Min(call.maxLines, |pending|)
  }

  /** At most 5000 wait, the lines last, each under its container. */
  ghost predicate EndsWithLines(before: seq<Entry>, pending: seq<Entry>, container: string, lines: seq<LogLine>) {
    && |pending| == Min(|before| + |lines|, 5000)
    && forall i :: 0 <= i < |lines| && |lines| - i <= |pending| ==>
         pending[|pending| - (|lines| - i)] == Entry(container, lines[i].ts, lines[i].text)
  }

  lemma AddedAtTheEnd(before: seq<Entry>, container: string, lines: seq<LogLine>)
    ensures EndsWithLines(before, Tail(before + Entries(container, lines), QUEUE_CAP), container, lines)
  {
    var all := before + Entries(container, lines);
    forall i | 0 <= i < |lines|
      ensures all[|all| - (|lines| - i)] == Entry(container, lines[i].ts, lines[i].text)
    {
    }
  }

  class LogUploadBuffer {
    var pending: seq<Entry>
    var lastTry: Option<nat>

    constructor ()
      ensures pending == [] && lastTry == None
    {
      pending, lastTry := [], None;
    }

    method Add(container: string, lines: seq<LogLine>)
      modifies this`pending
      ensures pending == Tail(old(pending) + Entries(container, lines), QUEUE_CAP)
      ensures EndsWithLines(old(pending), pending, container, lines)
    {
      hide EndsWithLines;
      ghost var before := pending;
      var i := 0;
      while i < |lines|
        modifies this`pending
        invariant 0 <= i <= |lines|
        invariant pending == before + Entries(container, lines[..i])
      {
        assert lines[..i + 1][..i] == lines[..i];
        pending := pending + [Entry(container, lines[i].ts, lines[i].text)];
        i := i + 1;
      }
      assert lines[..i] == lines;
      AddedAtTheEnd(before, container, lines);
      if |pending| > QUEUE_CAP {
        pending := pending[|pending| - QUEUE_CAP..];
      }
    }

    /** The first critical section: takes a copy of what is to be sent. */
    method BeginFlush(call: FlushCall) returns (batch: seq<Entry>)
      modifies this`lastTry
      ensures !Due(call, pending, old(lastTry)) ==> batch == [] && lastTry == old(lastTry)
      ensures Due(call, pending, old(lastTry)) ==>
                batch == pending[..BatchSize(call, pending)] && batch != [] && lastTry == Some(call.now)
      ensures batch != [] <==> && call.enabled && call.connected && call.maxLines > 0 && |pending| > 0
                               && (old(lastTry).None? || old(lastTry).value + call.interval <= call.now)
      ensures batch <= pending && (batch != [] ==> |batch| == Min(call.maxLines, |pending|))
      ensures lastTry == if batch == [] then old(lastTry) else Some(call.now)
    {
      if !call.enabled || !call.connected || call.maxLines <= 0 {
        return [];
      }
      if |pending| == 0 || (lastTry.Some? && call.now - lastTry.value < call.interval) {
        return [];
      }
      lastTry := Some(call.now);
      var count := call.maxLines;
      if count > |pending| {
        count := |pending|;
      }
      batch := pending[..count];
    }

    /** The second one, after a publish that succeeded. */
    method EndFlush(count: nat)
      modifies this`pending
      ensures pending == if |old(pending)| >= count then old(pending)[count..] else old(pending)
    {
      if |pending| >= count {
        pending := pending[count..];
      }
    }

    /** A flush with nothing in between; acknowledged is what the cloud took. */
    method Flush(call: FlushCall) returns (acknowledged: seq<Entry>)
      modifies this
      ensures acknowledged + pending == old(pending)
      ensures acknowledged == if call.published && Due(call, old(pending), old(lastTry))
                              then old(pending)[..BatchSize(call, old(pending))] else []
      ensures lastTry == if Due(call, old(pending), old(lastTry)) then Some(call.now) else old(lastTry)
    {
      var batch := BeginFlush(call);
      if batch == [] || !call.published {
        return [];
      }
      EndFlush(|batch|);
      return batch;
    }
  }

  // ---------------------------------------------------------- the queue over a run

  datatype Event = Added(entries: seq<Entry>) | Flushed(call: FlushCall)

  /** left is what has left the queue, in order, each entry with whether the cloud took it (or the cap trimmed it). */
  datatype Queue = Queue(pending: seq<Entry>, lastTry: Option<nat>, added: seq<Entry>, left: seq<(Entry, bool)>)

  function Marked(entries: seq<Entry>, taken: bool): (r: seq<(Entry, bool)>)
    ensures |r| == |entries| && forall i :: 0 <= i < |r| ==> r[i] == (entries[i], taken)
  {
    seq(|entries|, i requires 0 <= i < |entries| => (entries[i], taken))
  }

  function Step(q: Queue, e: Event): Queue {
    match e
    case Added(entries) =>
      var all := q.pending + entries;
      var trimmed := if |all| > QUEUE_CAP then all[..|all| - QUEUE_CAP] else [];
      Queue(Tail(all, QUEUE_CAP), q.lastTry, q.added + entries, q.left + Marked(trimmed, false))
    case Flushed(call) =>
      if !Due(call, q.pending, q.lastTry) then q
      else if !call.published then q.(lastTry := Some(call.now))
      else
        var n := BatchSize(call, q.pending);
        Queue(q.pending[n..], Some(call.now), q.added, q.left + Marked(q.pending[..n], true))
  }

  function RunQueue(events: seq<Event>): Queue {
    if events == [] then Queue([], None, [], [])
    else Step(RunQueue(events[..|events| - 1]), events[|events| - 1])
  }

  function Names(left: seq<(Entry, bool)>): (r: seq<Entry>)
    ensures |r| == |left| && forall i :: 0 <= i < |r| ==> r[i] == left[i].0
  {
    seq(|left|, i requires 0 <= i < |left| => left[i].0)
  }

  function Acknowledged(left: seq<(Entry, bool)>): seq<Entry> {
    if left == [] then []
    else Acknowledged(left[..|left| - 1]) + if left[|left| - 1].1 then [left[|left| - 1].0] else []
  }

  /** Conservation: what left the queue, in order, followed by what waits, is all that was added, in order. */
  ghost predicate Conserved(q: Queue) {
    Names(q.left) + q.pending == q.added && |q.pending| <= QUEUE_CAP
  }

  lemma NamesOf(left: seq<(Entry, bool)>, entries: seq<Entry>, taken: bool)
    ensures Names(left + Marked(entries, taken)) == Names(left) + entries
  {
  }

  lemma StepConserves(q: Queue, e: Event)
    requires Conserved(q)
    ensures Conserved(Step(q, e))
  {
    match e {
      case Added(entries) => AddConserves(q, entries);
      case Flushed(call) =>
        if Due(call, q.pending, q.lastTry) && call.published {
          TakeConserves(q, BatchSize(call, q.pending));
        }
    }
  }

  lemma AddConserves(q: Queue, entries: seq<Entry>)
    requires Conserved(q)
    ensures Conserved(Step(q, Added(entries)))
  {
    var all := q.pending + entries;
    var trimmed := if |all| > QUEUE_CAP then all[..|all| - QUEUE_CAP] else [];
    NamesOf(q.left, trimmed, false);
    Regroup(Names(q.left), q.pending, entries, trimmed, Tail(all, QUEUE_CAP));
  }

  lemma Regroup(a: seq<Entry>, b: seq<Entry>, c: seq<Entry>, d: seq<Entry>, e: seq<Entry>)
    requires d + e == b + c
    ensures a + d + e == a + b + c
  {
    assert a + d + e == a + (d + e);
    assert a + b + c == a + (b + c);
  }

  lemma TakeConserves(q: Queue, n: nat)
    requires Conserved(q) && n <= |q.pending|
    ensures Names(q.left + Marked(q.pending[..n], true)) + q.pending[n..] == q.added
  {
    NamesOf(q.left, q.pending[..n], true);
    Regroup(Names(q.left), q.pending, [], q.pending[..n], q.pending[n..]);
    assert Names(q.left) + q.pending + [] == Names(q.left) + q.pending;
  }

  lemma {:induction false} QueueConserves(events: seq<Event>)
    ensures Conserved(RunQueue(events))
  {
    if events != [] {
      QueueConserves(events[..|events| - 1]);
      StepConserves(RunQueue(events[..|events| - 1]), events[|events| - 1]);
    }
  }

  lemma {:induction false} AcknowledgedInOrder(left: seq<(Entry, bool)>)
    ensures Subsequence(Acknowledged(left), Names(left))
  {
    if left != [] {
      var init, last := left[..|left| - 1], left[|left| - 1];
      AcknowledgedInOrder(init);
      assert Names(left) == Names(init) + [last.0];
      var more := if last.1 then [last.0] else [];
      assert Subsequence(more, [last.0]);
      SubsequenceConcat(Acknowledged(init), Names(init), more, [last.0]);
    }
  }

  /**
   Over every run: the queue is a suffix of everything added, at most the cap long;
   what the cloud took followed by what waits is an in-order selection of it; and
   without trims nothing at all is missing.
   */
  lemma DeliveryOverRuns(events: seq<Event>)
    ensures var q := RunQueue(events);
            && |q.pending| <= QUEUE_CAP && |q.pending| <= |q.added| && q.pending == q.added[|q.added| - |q.pending|..]
            && Subsequence(Acknowledged(q.left) + q.pending, q.added)
            && ((forall x :: x in q.left ==> x.1) ==> Acknowledged(q.left) + q.pending == q.added)
  {
    QueueConserves(events);
    var q := RunQueue(events);
    AcknowledgedInOrder(q.left);
    SubsequenceReflexive(q.pending);
    SubsequenceConcat(Acknowledged(q.left), Names(q.left), q.pending, q.pending);
    AllAcknowledged(q.left);
  }

  lemma {:induction false} AllAcknowledged(left: seq<(Entry, bool)>)
    ensures (forall x :: x in left ==> x.1) ==> Acknowledged(left) == Names(left)
  {
    if left != [] {
      var init, last := left[..|left| - 1], left[|left| - 1];
      assert left == init + [last];
      AllAcknowledged(init);
      assert Names(left) == Names(init) + [last.0];
    }
  }

  /** A line is missing only when an addition overflows the cap: every other step trims nothing. */
  lemma OnlyOverflowTrims(q: Queue, e: Event)
    ensures q.left <= Step(q, e).left
    ensures (exists i :: |q.left| <= i < |Step(q, e).left| && !Step(q, e).left[i].1)
            <==> e.Added? && |q.pending| + |e.entries| > QUEUE_CAP
  {
    var now := Step(q, e);
    if e.Added? && |q.pending| + |e.entries| > QUEUE_CAP {
      assert !now.left[|q.left|].1;
    }
  }

  /** A flush that fails, or is not due, loses nothing. */
  lemma FailedFlushLosesNothing(q: Queue, call: FlushCall)
    requires !call.published || !Due(call, q.pending, q.lastTry)
    ensures var now := Step(q, Flushed(call)); now.pending == q.pending && now.left == q.left && now.added == q.added
  {
  }

  // -------------------------------------------------- additions during a publish

  function AddAll(pending: seq<Entry>, chunks: seq<seq<Entry>>): seq<Entry> {
    if chunks == [] then pending
    else Tail(AddAll(pending, chunks[..|chunks| - 1]) + chunks[|chunks| - 1], QUEUE_CAP)
  }

  function Total(chunks: seq<seq<Entry>>): seq<Entry> {
    if chunks == [] then [] else Total(chunks[..|chunks| - 1]) + chunks[|chunks| - 1]
  }

  lemma {:induction false} AddAllIsTail(pending: seq<Entry>, chunks: seq<seq<Entry>>)
    requires |pending| <= QUEUE_CAP
    ensures AddAll(pending, chunks) == Tail(pending + Total(chunks), QUEUE_CAP)
  {
    if chunks == [] {
      assert pending + [] == pending;
    } else {
      var init, last := chunks[..|chunks| - 1], chunks[|chunks| - 1];
      AddAllIsTail(pending, init);
      TailOfTail(pending + Total(init), last, QUEUE_CAP);
      assert pending + Total(init) + last == pending + (Total(init) + last);
    }
  }

  /** What the second critical section of a flush leaves when additions ran during its publish. */
  function AfterInterleaved(pending: seq<Entry>, count: nat, chunks: seq<seq<Entry>>): seq<Entry> {
    var now := AddAll(pending, chunks);
    if |now| >= count then now[count..] else now
  }

  /**
   The lock is not held while publishing. Additions in between leave the queue as
   if they had come after the flush if and only if they do not overflow it; when
   they do, lines that were never sent are dropped along with the sent ones.
   */
  lemma AddingDuringAFlush(pending: seq<Entry>, count: nat, chunks: seq<seq<Entry>>)
    requires 0 < count <= |pending| <= QUEUE_CAP
    ensures AfterInterleaved(pending, count, chunks) == AddAll(pending[count..], chunks)
            <==> |pending| + |Total(chunks)| <= QUEUE_CAP
  {
    AddAllIsTail(pending, chunks);
    AddAllIsTail(pending[count..], chunks);
    var all := pending + Total(chunks);
    assert all[count..] == pending[count..] + Total(chunks);
  }
}
