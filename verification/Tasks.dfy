/**
 Long native operations run as tasks that a client watches by polling: each
 poll names how many bytes the client already has and gets what follows, or the
 retained tail when it has fallen behind. A task also carries the plan it runs,
 one status per stage.
 */
module Tasks {
  import opened Wrappers
  import opened Sequences

  /** How much output a task retains, in bytes. */
  const OUTPUT_LIMIT: nat := 32 * 1024

  // ---------------------------------------------------------------- the plan

  datatype StageStatus = Pending | Running | Succeeded | Failed

  datatype Stage = Stage(name: string, status: StageStatus)

  datatype TaskStatus = TaskRunning | TaskSucceeded | TaskFailed | TaskCanceled

  /** What one snapshot shows of a task's progress. */
  datatype View = View(stages: seq<Stage>, status: TaskStatus)

  /** Stages before k succeeded, the stages after k are pending, and stage k (if any) has status st. */
  ghost predicate ProgressAt(stages: seq<Stage>, k: nat, st: StageStatus) {
    && k <= |stages|
    && (forall i :: 0 <= i < k ==> stages[i].status == Succeeded)
    && (k < |stages| ==> stages[k].status == st)
    && (forall i :: k < i < |stages| ==> stages[i].status == Pending)
  }

  /** succeeded*, then at most one stage running or failed, then pending*. */
  ghost predicate InOrder(stages: seq<Stage>) {
    exists k: nat, st :: ProgressAt(stages, k, st) && st != Succeeded
  }

  /** The first stage with this name and status, or |stages| when there is none. */
  function FirstWith(stages: seq<Stage>, name: string, status: StageStatus): (k: nat)
    ensures k <= |stages|
    ensures forall i :: 0 <= i < k ==> stages[i] != Stage(name, status)
    ensures k < |stages| ==> stages[k] == Stage(name, status)
  {
    if stages == [] || stages[0] == Stage(name, status) then 0
    else FirstWith(stages[1..], name, status) + 1
  }

  /** stages with its first (name, from) entry moved to status to. */
  function Mark(stages: seq<Stage>, name: string, from: StageStatus, to: StageStatus): seq<Stage> {
    var k := FirstWith(stages, name, from);
    if k < |stages| then stages[k := Stage(name, to)] else stages
  }

  /**
   Marking by name always hits the stage the run is at, even when two stages
   share a name: everything before it has already left the status looked for.
   */
  lemma MarkMovesTheCurrentStage(stages: seq<Stage>, k: nat, from: StageStatus, to: StageStatus)
    requires k < |stages| && ProgressAt(stages, k, from)
    requires from != Succeeded
    ensures Mark(stages, stages[k].name, from, to) == stages[k := Stage(stages[k].name, to)]
    ensures ProgressAt(Mark(stages, stages[k].name, from, to), k, to)
  {
    assert stages[k] == Stage(stages[k].name, from);
  }

  /** A finished stage hands over to the next one, which is pending. */
  lemma NextStageIsPending(stages: seq<Stage>, k: nat)
    requires k < |stages| && ProgressAt(stages, k, Succeeded)
    ensures ProgressAt(stages, k + 1, Pending)
  {
  }

  // -------------------------------------------------------------- the output

  /** Which bytes a poll at `since` is answered with, given everything written so far. */
  datatype Reply = Reply(chunk: seq<byte>, from: int, truncated: bool)

  /** Where the retained tail of the stream starts. */
  function TailStart(stream: seq<byte>): nat {
    |stream| - |Tail(stream, OUTPUT_LIMIT)|
  }

  function Answer(stream: seq<byte>, since: int): (r: Reply)
    ensures 0 <= r.from <= |stream| && r.chunk == stream[r.from..]
    ensures r.truncated <==> 0 <= since < TailStart(stream)
    ensures TailStart(stream) <= since <= |stream| ==> r.from == since
    ensures |r.chunk| <= OUTPUT_LIMIT
  {
    var start := TailStart(stream);
    var from := if since < start then start else Min(since, |stream|);
    Reply(stream[from..], from, 0 <= since < start)
  }

  datatype Outcome = Outcome(ok: bool, exitCode: int, stdout: string, stderr: string)

  datatype ContextError = NoError | Canceled | DeadlineExceeded

  /** What a finished task shows of a failed run's stderr: its first 512 bytes. */
  function ErrorExcerpt(response: Outcome): string {
    if |response.stderr| > 512 then response.stderr[..512] else response.stderr
  }

  function FinalStatus(response: Outcome, ctx: ContextError): TaskStatus {
    if ctx == NoError && response.ok then TaskSucceeded
    else if ctx == Canceled then TaskCanceled
    else TaskFailed
  }

  class OpTask {
    const id: string
    var stages: seq<Stage>
    var status: TaskStatus
    var ok: bool
    var exitCode: int
    var stdout: string
    var stderr: string
    var failure: string
    // The retained tail of everything written, and how much was written.
    var output: seq<byte>
    var written: nat
    // cancel was called on the run's context.
    var cancelRequested: bool
    // The done channel is closed.
    var done: bool

    /** Everything ever written. */
    ghost var stream: seq<byte>
    /** Every state a snapshot could have shown, oldest first. */
    ghost var views: seq<View>

    ghost predicate Valid()
      reads this
    {
      && output == Tail(stream, OUTPUT_LIMIT)
      && written == |stream|
      && views != [] && views[|views| - 1] == View(stages, status)
      && (done <==> status != TaskRunning)
    }

    constructor (id: string, names: seq<string>)
      ensures Valid() && this.id == id && status == TaskRunning && stream == [] && !cancelRequested
      ensures stages == seq(|names|, i requires 0 <= i < |names| => Stage(names[i], Pending))
      ensures views == [View(stages, status)]
    {
      this.id := id;
      var planned: seq<Stage> := seq(|names|, i requires 0 <= i < |names| => Stage(names[i], Pending));
      stages, status, done, cancelRequested := planned, TaskRunning, false, false;
      ok, exitCode, stdout, stderr, failure := false, 0, "", "", "";
      output, written, stream := [], 0, [];
      views := [View(planned, TaskRunning)];
    }

    method StageStarted(name: string)
      requires Valid()
      modifies this`stages, this`views
      ensures Valid()
      ensures stages == Mark(old(stages), name, Pending, Running)
      ensures views == old(views) + [View(stages, status)]
    {
      var i := 0;
      while i < |stages|
        invariant 0 <= i <= |stages| && stages == old(stages) && views == old(views)
        invariant forall j :: 0 <= j < i ==> stages[j] != Stage(name, Pending)
      {
        if stages[i].name == name && stages[i].status == Pending {
          assert stages[i] == Stage(name, Pending);
          assert i == FirstWith(stages, name, Pending);
          stages := stages[i := stages[i].(status := Running)];
          break;
        }
        i := i + 1;
      }
      views := views + [View(stages, status)];
    }

    method StageFinished(name: string, ok: bool)
      requires Valid()
      modifies this`stages, this`views
      ensures Valid()
      ensures stages == Mark(old(stages), name, Running, if ok then Succeeded else Failed)
      ensures views == old(views) + [View(stages, status)]
    {
      var i := 0;
      while i < |stages|
        invariant 0 <= i <= |stages| && stages == old(stages) && views == old(views)
        invariant forall j :: 0 <= j < i ==> stages[j] != Stage(name, Running)
      {
        if stages[i].name != name || stages[i].status != Running {
          i := i + 1;
          continue;
        }
        assert stages[i] == Stage(name, Running);
        assert i == FirstWith(stages, name, Running);
        stages := stages[i := stages[i].(status := if ok then Succeeded else Failed)];
        break;
      }
      views := views + [View(stages, status)];
    }

    /** Whatever has been written, the retained output is its last OUTPUT_LIMIT bytes. */
    method Write(p: seq<byte>) returns (n: nat)
      requires Valid()
      modifies this`output, this`written, this`stream
      ensures Valid()
      ensures stream == old(stream) + p && n == |p|
      ensures |output| == Min(|stream|, 32768) && output == stream[|stream| - |output|..]
    {
      TailOfTail(stream, p, OUTPUT_LIMIT);
      output := output + p;
      if |output| > OUTPUT_LIMIT {
        output := output[|output| - OUTPUT_LIMIT..];
      }
      written := written + |p|;
      stream := stream + p;
      n := |p|;
    }

    method OutputSince(since: int) returns (chunk: seq<byte>, from: int, truncated: bool)
      requires Valid()
      ensures Reply(chunk, from, truncated) == Answer(stream, since)
    {
      var start := written - |output|;
      assert start == TailStart(stream) && output == stream[start..];
      if since < 0 {
        return output, start, false;
      }
      if since < start {
        return output, start, true;
      }
      var at := since;
      if at > written {
        at := written;
      }
      var offset := at - start;
      if offset > |output| {
        offset := |output|;
      }
      return output[offset..], at, false;
    }

    /** The done channel may be closed only once, so a task is finished only once. */
    method Finish(response: Outcome, ctx: ContextError, timeout: string)
      requires Valid() && status == TaskRunning
      modifies this`ok, this`exitCode, this`stdout, this`stderr, this`status, this`failure, this`done, this`views
      ensures Valid() && done
      ensures status == FinalStatus(response, ctx)
      // Told without the definitions above.
      ensures status == TaskSucceeded <==> ctx == NoError && response.ok
      ensures status == TaskCanceled <==> ctx == Canceled
      ensures ctx == NoError ==> failure <= response.stderr && |failure| == if response.ok then 0 else Min(|response.stderr|, 512)
      ensures ok == response.ok && exitCode == response.exitCode
      ensures stdout == response.stdout && stderr == response.stderr
      ensures failure == match ctx
                         case Canceled => "the run was cancelled"
                         case DeadlineExceeded => "the run timed out after " + timeout
                         case NoError => if response.ok then "" else ErrorExcerpt(response)
      ensures views == old(views) + [View(stages, status)]
    {
      ok, exitCode := response.ok, response.exitCode;
      stdout, stderr := response.stdout, response.stderr;
      if ctx == NoError && response.ok {
        status, failure := TaskSucceeded, "";
      } else if ctx == Canceled {
        status, failure := TaskCanceled, "the run was cancelled";
      } else if ctx == DeadlineExceeded {
        status, failure := TaskFailed, "the run timed out after " + timeout;
      } else {
        status, failure := TaskFailed, ErrorExcerpt(response);
      }
      views := views + [View(stages, status)];
      done := true;
    }

    method CancelRun() returns (stopped: bool)
      requires Valid()
      modifies this`cancelRequested
      ensures Valid()
      ensures stopped == (status == TaskRunning)
      ensures cancelRequested == (old(cancelRequested) || status == TaskRunning)
    {
      if status != TaskRunning {
        return false;
      }
      cancelRequested := true;
      return true;
    }
  }

  // ------------------------------------------------------------ the follower

  /** A client: what it holds, and the offset it will ask from next (-1 before its first poll). */
  datatype Follower = Follower(held: seq<byte>, offset: int)

  /** A poll is answered, then travels back to the client; writes may land in between. */
  datatype Following = Following(stream: seq<byte>, client: Follower, reply: seq<Reply>)

  datatype FollowEvent = Wrote(p: seq<byte>) | Polled | Received

  const NEW_FOLLOWER := Follower([], -1)

  /** A client extends what it holds, or replaces it when told it was truncated. */
  function Receive(client: Follower, r: Reply): Follower {
    Follower(if r.truncated then r.chunk else client.held + r.chunk, r.from + |r.chunk|)
  }

  function Follow(s: Following, e: FollowEvent): Following {
    match e
    case Wrote(p) => s.(stream := s.stream + p)
    case Polled => if s.reply == [] then s.(reply := [Answer(s.stream, s.client.offset)]) else s
    case Received => if s.reply != [] then s.(client := Receive(s.client, s.reply[0]), reply := []) else s
  }

  function FollowAll(s: Following, es: seq<FollowEvent>): Following
    decreases |es|
  {
    if es == [] then s else FollowAll(Follow(s, es[0]), es[1..])
  }

  /** The client holds a contiguous piece of the stream that ends at its offset. */
  ghost predicate HoldsSegment(stream: seq<byte>, client: Follower) {
    || client == NEW_FOLLOWER
    || (&& 0 <= client.offset <= |stream|
        && |client.held| <= client.offset
        && client.held == stream[client.offset - |client.held|..client.offset])
  }

  ghost predicate FollowInv(s: Following) {
    && HoldsSegment(s.stream, s.client)
    && |s.reply| <= 1
    && (s.reply != [] ==> exists seen :: seen <= s.stream && s.reply[0] == Answer(seen, s.client.offset)
                                         && HoldsSegment(seen, s.client))
  }

  lemma ReceiveKeepsSegment(stream: seq<byte>, client: Follower)
    requires HoldsSegment(stream, client)
    ensures HoldsSegment(stream, Receive(client, Answer(stream, client.offset)))
    ensures Receive(client, Answer(stream, client.offset)).offset == |stream|
  {
    var r := Answer(stream, client.offset);
    if !r.truncated && client.offset >= 0 {
      assert r.from == client.offset;
      assert client.held + r.chunk == stream[client.offset - |client.held|..];
    }
  }

  lemma SegmentOfLongerStream(seen: seq<byte>, stream: seq<byte>, client: Follower)
    requires seen <= stream && HoldsSegment(seen, client)
    ensures HoldsSegment(stream, client)
  {
  }

  lemma FollowStep(s: Following, e: FollowEvent)
    requires FollowInv(s)
    ensures FollowInv(Follow(s, e))
  {
    match e
    case Wrote(p) =>
      SegmentOfLongerStream(s.stream, s.stream + p, s.client);
      if s.reply != [] {
        var seen :| seen <= s.stream && s.reply[0] == Answer(seen, s.client.offset) && HoldsSegment(seen, s.client);
        assert seen <= s.stream + p;
      }
    case Polled =>
      assert s.stream <= s.stream;
    case Received =>
      if s.reply != [] {
        var seen :| seen <= s.stream && s.reply[0] == Answer(seen, s.client.offset) && HoldsSegment(seen, s.client);
        ReceiveKeepsSegment(seen, s.client);
        SegmentOfLongerStream(seen, s.stream, Receive(s.client, s.reply[0]));
      }
  }

  /**
   However writes and polls interleave, the client holds a contiguous segment of
   the true stream that ends at its own offset: no gap, no overlap, no repeat.
   The chunks travel as JSON strings, so what holds of bytes here holds of a
   client that counts the bytes it decodes as long as no chunk begins or ends
   inside a character.
   */
  lemma {:induction false} FollowerHoldsASegment(s: Following, es: seq<FollowEvent>)
    requires FollowInv(s)
    ensures FollowInv(FollowAll(s, es))
    ensures HoldsSegment(FollowAll(s, es).stream, FollowAll(s, es).client)
    decreases |es|
  {
    if es != [] {
      FollowStep(s, es[0]);
      FollowerHoldsASegment(Follow(s, es[0]), es[1..]);
    }
  }

  /**
   A quiet poll round brings a client fully up to date; unless it had fallen
   behind the retained tail, it then holds every byte from where it began.
   */
  lemma QuietPollCatchesUp(s: Following)
    requires FollowInv(s) && s.reply == []
    ensures var t := FollowAll(s, [Polled, Received]);
            && t.client.offset == |s.stream|
            && (s.client.offset >= TailStart(s.stream) ==>
                  t.client.held == s.client.held + s.stream[s.client.offset..])
            && (0 <= s.client.offset < TailStart(s.stream) ==>
                  t.client.held == Tail(s.stream, OUTPUT_LIMIT))
  {
    hide FollowAll, Answer, Receive;
    QuietRound(s);
    ReceiveKeepsSegment(s.stream, s.client);
    ReceiveBrings(s.stream, s.client);
  }

  lemma QuietRound(s: Following)
    requires s.reply == []
    ensures FollowAll(s, [Polled, Received])
            == Following(s.stream, Receive(s.client, Answer(s.stream, s.client.offset)), [])
  {
    var asked := Follow(s, Polled);
    assert [Polled, Received][1..] == [Received] && [Received][1..] == [];
    assert FollowAll(asked, [Received]) == FollowAll(Follow(asked, Received), []);
  }

  lemma ReceiveBrings(stream: seq<byte>, client: Follower)
    requires HoldsSegment(stream, client)
    ensures TailStart(stream) <= client.offset ==>
              Receive(client, Answer(stream, client.offset)).held == client.held + stream[client.offset..]
    ensures 0 <= client.offset < TailStart(stream) ==>
              Receive(client, Answer(stream, client.offset)).held == Tail(stream, OUTPUT_LIMIT)
  {
  }

  /**
   The byte count in the task snapshot is read after the chunk, in a second
   critical section. A client that advanced to it instead would skip whatever
   was written in between: here it holds "a", "c" of the stream "a", "b", "c".
   */
  lemma SnapshotCountSkipsBytes()
    ensures var first := Answer([1], -1);
            var wrong := Receive(NEW_FOLLOWER, first).(offset := |[1, 2]|);
            var second := Receive(wrong, Answer([1, 2, 3], wrong.offset));
            second.held == [1, 3] && !HoldsSegment([1, 2, 3], second)
  {
    var first := Answer([1], -1);
    assert first == Reply([1], 0, false);
    var wrong := Receive(NEW_FOLLOWER, first).(offset := 2);
    var stream: seq<byte> := [1, 2, 3];
    assert Answer(stream, 2) == Reply([3], 2, false);
    var second := Receive(wrong, Answer(stream, wrong.offset));
    assert second == Follower([1, 3], 3);
    assert stream[1..3] == [2, 3];
  }
}
