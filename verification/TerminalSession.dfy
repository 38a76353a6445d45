/**
 One terminal session of the daemon, and the threads around it: the PTY reader
 that fills the output queue, the reaper that waits for the shell, the pump that
 writes output and the exit frame to the client, the read loop that answers a
 client breaking the protocol with an error frame on the same connection, and any
 number of closers. Every statement that touches shared state is a step of its
 own, and steps interleave freely.
 */
module TerminalSession {
  import opened Wrappers

  const QUEUE: nat := 64

  type Chunk = string

  datatype Frame = Data(chunk: Chunk) | Exit(code: int, reason: string) | Error(message: string)

  // ------------------------------------------------------------- program points

  datatype Reader =
    | Reading
    | Holding(chunk: Chunk, last: bool)  // has read a chunk, waits for room in the queue or for closing
    | ClosingOut                         // the deferred closes, in the order they run
    | ClosingReadDone
    | ReaderEnded

  datatype Reaper =
    | Waiting
    | Exited(code: int)                  // the shell is gone; gives the reader time to end
    | ReaperFinishing(code: int)         // about to enter finish
    | ReaperClosingDone                  // has set finished, about to close done
    | ReaperEnded

  datatype Closer =
    | Asking(reason: string)
    | Won                                // set closed, about to close closing
    | Terminating                        // waits for done, within the kill grace
    | CloserFinishing
    | CloserClosingDone                  // has set finished, about to close done
    | Unmapping
    | Auditing
    | ClosedSession                      // the winning close has returned
    | Lost                               // someone else closed first

  datatype Pump =
    | Looping(drained: bool)             // drained: the queue was seen closed and is no longer read
    | Writing(chunk: Chunk, exiting: bool)
    | Draining(drained: bool)            // done was seen; flushes what is queued
    | SendingExit
    | ClosingConnection                  // the exit frame is out, or its write failed
    | PumpEnded

  datatype ReadLoop =
    | Listening
    | Complaining(message: string)       // the client broke the protocol; about to write an error frame
    | LoopEnded

  /** The close: channels count how often they were closed, for a second close would be a crash. */
  datatype CloseState = CloseState(
    closed: bool, reason: string, closing: nat, inMap: bool, audits: nat,
    closers: map<nat, Closer>,
    winner: Option<nat>)        // bookkeeping: who won the close

  /** The end of the shell, as finish records it. */
  datatype EndState = EndState(
    finished: bool, exitCode: int, done: nat, reaper: Reaper,
    readerFirst: bool)          // bookkeeping: the queue was closed when finished was set

  /** The output on its way from the PTY into the queue. */
  datatype FeedState = FeedState(
    reader: Reader, outCloses: nat, readDone: nat, out: seq<Chunk>,
    // Bookkeeping: everything read, queued, and taken by the pump; whether the reader dropped its chunk.
    read: seq<Chunk>, queued: seq<Chunk>, taken: seq<Chunk>, dropped: bool)

  /** The connection to the client, and who writes to it. */
  datatype ClientState = ClientState(
    pump: Pump, loop: ReadLoop, frames: seq<Frame>, closed: bool,
    failed: bool)               // bookkeeping: a write of a chunk failed

  datatype Session = Session(close: CloseState, end: EndState, feed: FeedState, client: ClientState)

  const OPENED := Session(
    CloseState(false, "", 0, true, 0, map[], None),
    EndState(false, 0, 0, Waiting, false),
    FeedState(Reading, 0, 0, [], [], [], [], false),
    ClientState(Looping(false), Listening, [], false, false))

  datatype Event =
    | Read(chunk: Chunk, last: bool) | ReadEnds | Queue | Drop | CloseOut | CloseReadDone
    | ShellExits(code: int) | StopDraining | ReaperFinish | ReaperCloseDone
    | AskClose(n: nat, reason: string) | TryClose(n: nat) | CloseClosing(n: nat) | GraceOver(n: nat)
    | CloserFinish(n: nat) | CloserCloseDone(n: nat) | Unmap(n: nat) | Audit(n: nat)
    | Take | SeeQueueClosed | SeeDone | ContextEnds | WriteOk | WriteFails | PingFails | DrainEnds
    | WriteExit | WriteExitFails | CloseConnection
    | Complain(message: string) | WriteError | WriteErrorFails | ListenEnds

  predicate At(s: Session, n: nat, c: Closer) {
    n in s.close.closers && s.close.closers[n] == c
  }

  predicate Enabled(s: Session, e: Event) {
    match e
    case Read(_, _) => s.feed.reader == Reading
    case ReadEnds => s.feed.reader == Reading
    case Queue => s.feed.reader.Holding? && |s.feed.out| < QUEUE
    case Drop => s.feed.reader.Holding? && s.close.closing > 0
    case CloseOut => s.feed.reader == ClosingOut
    case CloseReadDone => s.feed.reader == ClosingReadDone
    case ShellExits(_) => s.end.reaper == Waiting
    case StopDraining => s.end.reaper.Exited?       // readDone is closed, or the drain grace ran out
    case ReaperFinish => s.end.reaper.ReaperFinishing?
    case ReaperCloseDone => s.end.reaper == ReaperClosingDone
    case AskClose(n, _) => n !in s.close.closers
    case TryClose(n) => n in s.close.closers && s.close.closers[n].Asking?
    case CloseClosing(n) => At(s, n, Won)
    case GraceOver(n) => At(s, n, Terminating)  // done is closed, or the kill grace ran out twice
    case CloserFinish(n) => At(s, n, CloserFinishing)
    case CloserCloseDone(n) => At(s, n, CloserClosingDone)
    case Unmap(n) => At(s, n, Unmapping)
    case Audit(n) => At(s, n, Auditing)
    case Take => (s.client.pump == Looping(false) || s.client.pump == Draining(false)) && s.feed.out != []
    case SeeQueueClosed => s.client.pump == Looping(false) && s.feed.out == [] && s.feed.outCloses > 0
    case SeeDone => s.client.pump.Looping? && s.end.done > 0
    case ContextEnds => s.client.pump.Looping?
    case WriteOk => s.client.pump.Writing?
    case WriteFails => s.client.pump.Writing?
    case PingFails => s.client.pump.Looping?
    case DrainEnds => s.client.pump.Draining? && (s.client.pump.drained || s.feed.out == [])
    case WriteExit => s.client.pump == SendingExit
    case WriteExitFails => s.client.pump == SendingExit
    case CloseConnection => s.client.pump == ClosingConnection
    case Complain(_) => s.client.loop == Listening
    case WriteError => s.client.loop.Complaining? && !s.client.closed
    case WriteErrorFails => s.client.loop.Complaining?
    case ListenEnds => s.client.loop == Listening
  }

  function Go(s: Session, n: nat, c: Closer): Session {
    s.(close := s.close.(closers := s.close.closers[n := c]))
  }

  /** The locked half of finish: only the first caller sets the flag. */
  function SetFinished(s: Session, code: int): Session {
    s.(end := s.end.(finished := true, exitCode := code, readerFirst := s.feed.outCloses > 0))
  }

  function StepReader(feed: FeedState, e: Event): FeedState
    requires e.Queue? ==> feed.reader.Holding?
  {
    match e
    case Read(chunk, last) => feed.(reader := Holding(chunk, last), read := feed.read + [chunk])
    case ReadEnds => feed.(reader := ClosingOut)
    case Queue =>
      feed.(out := feed.out + [feed.reader.chunk], queued := feed.queued + [feed.reader.chunk],
            reader := if feed.reader.last then ClosingOut else Reading)
    case Drop => feed.(reader := ClosingOut, dropped := true)
    case CloseOut => feed.(reader := ClosingReadDone, outCloses := feed.outCloses + 1)
    case CloseReadDone => feed.(reader := ReaderEnded, readDone := feed.readDone + 1)
    case _ => feed
  }

  function StepReaper(s: Session, e: Event): Session
    requires Enabled(s, e)
  {
    match e
    case ShellExits(code) => s.(end := s.end.(reaper := Exited(code)))
    case StopDraining => s.(end := s.end.(reaper := ReaperFinishing(s.end.reaper.code)))
    case ReaperFinish =>
      if s.end.finished then s.(end := s.end.(reaper := ReaperEnded))
      else
        var t := SetFinished(s, s.end.reaper.code);
        t.(end := t.end.(reaper := ReaperClosingDone))
    case ReaperCloseDone => s.(end := s.end.(reaper := ReaperEnded, done := s.end.done + 1))
    case _ => s
  }

  function StepCloser(s: Session, e: Event): Session
    requires Enabled(s, e)
  {
    match e
    case AskClose(n, reason) => Go(s, n, Asking(reason))
    case TryClose(n) =>
      if s.close.closed then Go(s, n, Lost)
      else
        var reason := if s.close.reason == "" then s.close.closers[n].reason else s.close.reason;
        var won := Go(s, n, Won);
        won.(close := won.close.(closed := true, reason := reason, winner := Some(n)))
    case CloseClosing(n) =>
      var t := Go(s, n, Terminating);
      t.(close := t.close.(closing := s.close.closing + 1))
    case GraceOver(n) => Go(s, n, CloserFinishing)
    case CloserFinish(n) =>
      if s.end.finished then Go(s, n, Unmapping) else Go(SetFinished(s, s.end.exitCode), n, CloserClosingDone)
    case CloserCloseDone(n) =>
      var t := Go(s, n, Unmapping);
      t.(end := t.end.(done := s.end.done + 1))
    case Unmap(n) =>
      var t := Go(s, n, Auditing);
      t.(close := t.close.(inMap := false))
    case Audit(n) =>
      var t := Go(s, n, ClosedSession);
      t.(close := t.close.(audits := s.close.audits + 1))
    case _ => s
  }

  /** Taking a chunk is the one step of the pump that changes the queue. */
  function StepQueue(feed: FeedState, e: Event): FeedState
    requires e.Take? ==> feed.out != []
  {
    if e.Take? then feed.(out := feed.out[1..], taken := feed.taken + [feed.out[0]]) else feed
  }

  function StepPump(client: ClientState, feed: FeedState, exit: Frame, e: Event): ClientState
    requires e.Take? ==> feed.out != []
    requires e.SeeDone? ==> client.pump.Looping?
    requires e.WriteOk? ==> client.pump.Writing?
  {
    match e
    case Take => client.(pump := Writing(feed.out[0], client.pump.Draining?))
    case SeeQueueClosed => client.(pump := Looping(true))
    case SeeDone => client.(pump := Draining(client.pump.drained))
    case ContextEnds => client.(pump := PumpEnded, closed := true)
    case WriteOk =>
      client.(frames := client.frames + [Data(client.pump.chunk)],
              pump := if client.pump.exiting then Draining(false) else Looping(false))
    case WriteFails => client.(pump := PumpEnded, failed := true)
    case PingFails => client.(pump := PumpEnded)
    case DrainEnds => client.(pump := SendingExit)
    case WriteExit => client.(frames := client.frames + [exit], pump := ClosingConnection)
    case WriteExitFails => client.(pump := ClosingConnection)
    case CloseConnection => client.(pump := PumpEnded, closed := true)
    case _ => client
  }

  function StepLoop(client: ClientState, e: Event): ClientState
    requires e.WriteError? ==> client.loop.Complaining?
  {
    match e
    case Complain(message) => client.(loop := Complaining(message))
    case WriteError => client.(frames := client.frames + [Error(client.loop.message)], loop := LoopEnded)
    case WriteErrorFails => client.(loop := LoopEnded)
    case ListenEnds => client.(loop := LoopEnded)
    case _ => client
  }

  predicate OfReader(e: Event) {
    e.Read? || e.ReadEnds? || e.Queue? || e.Drop? || e.CloseOut? || e.CloseReadDone?
  }

  predicate OfReaper(e: Event) {
    e.ShellExits? || e.StopDraining? || e.ReaperFinish? || e.ReaperCloseDone?
  }

  predicate OfCloser(e: Event) {
    e.AskClose? || e.TryClose? || e.CloseClosing? || e.GraceOver? || e.CloserFinish? || e.CloserCloseDone? || e.Unmap? || e.Audit?
  }

  predicate OfLoop(e: Event) {
    e.Complain? || e.WriteError? || e.WriteErrorFails? || e.ListenEnds?
  }

  predicate OfPump(e: Event) {
    !OfReader(e) && !OfReaper(e) && !OfCloser(e) && !OfLoop(e)
  }

  function Step(s: Session, e: Event): Session
    requires Enabled(s, e)
  {
    if OfReader(e) then s.(feed := StepReader(s.feed, e))
    else if OfReaper(e) then StepReaper(s, e)
    else if OfCloser(e) then StepCloser(s, e)
    else if OfLoop(e) then s.(client := StepLoop(s.client, e))
    else s.(feed := StepQueue(s.feed, e), client := StepPump(s.client, s.feed, Exit(s.end.exitCode, s.close.reason), e))
  }

  ghost predicate Possible(s: Session, es: seq<Event>)
    decreases |es|
  {
    es != [] ==> Enabled(s, es[0]) && Possible(Step(s, es[0]), es[1..])
  }

  function Run(s: Session, es: seq<Event>): Session
    requires Possible(s, es)
    decreases |es|
  {
    if es == [] then s else Run(Step(s, es[0]), es[1..])
  }

  // -------------------------------------------------------------- the invariant

  /** How far the winning close has come. */
  function Rank(c: Closer): nat {
    match c
    case Won => 1
    case Terminating => 2
    case CloserFinishing => 3
    case CloserClosingDone => 4
    case Unmapping => 5
    case Auditing => 6
    case ClosedSession => 7
    case _ => 0
  }

  function WinnerRank(c: CloseState): nat {
    if c.winner.Some? && c.winner.value in c.closers then Rank(c.closers[c.winner.value]) else 0
  }

  ghost predicate CloseInv(c: CloseState, end: EndState) {
    && (c.closed <==> c.winner.Some?)
    && (c.winner.Some? ==> WinnerRank(c) > 0)
    && (forall n :: n in c.closers && Rank(c.closers[n]) > 0 ==> c.winner == Some(n))
    && c.closing == (if WinnerRank(c) >= 2 then 1 else 0)
    && c.inMap == (WinnerRank(c) < 6)
    && c.audits == (if WinnerRank(c) == 7 then 1 else 0)
    && (WinnerRank(c) >= 4 ==> end.finished)
    && end.done + (if end.reaper == ReaperClosingDone then 1 else 0) + (if WinnerRank(c) == 4 then 1 else 0)
       == (if end.finished then 1 else 0)
  }

  ghost predicate ReadInv(feed: FeedState, closing: bool) {
    && feed.outCloses == (if feed.reader == ClosingReadDone || feed.reader == ReaderEnded then 1 else 0)
    && feed.readDone == (if feed.reader == ReaderEnded then 1 else 0)
    && |feed.out| <= QUEUE
    && feed.taken + feed.out == feed.queued
    && (feed.dropped ==> closing && !feed.reader.Reading? && !feed.reader.Holding?)
    && feed.queued <= feed.read
    && |feed.read| == |feed.queued| + (if feed.reader.Holding? || feed.dropped then 1 else 0)
    && (feed.reader.Holding? ==> feed.read == feed.queued + [feed.reader.chunk])
  }

  /** The chunks among the frames, in order. */
  function Delivered(frames: seq<Frame>): seq<Chunk> {
    if frames == [] then []
    else
      var last := frames[|frames| - 1];
      Delivered(frames[..|frames| - 1]) + if last.Data? then [last.chunk] else []
  }

  /** The exit frame is out. */
  predicate ExitSent(frames: seq<Frame>) {
    frames != [] && (frames[|frames| - 1].Exit? || ExitSent(frames[..|frames| - 1]))
  }

  /** Once it is, only an error frame may follow, and no second exit. */
  predicate OnlyErrorsAfterExit(frames: seq<Frame>) {
    frames != [] ==>
      && OnlyErrorsAfterExit(frames[..|frames| - 1])
      && (ExitSent(frames[..|frames| - 1]) ==> frames[|frames| - 1].Error?)
  }

  lemma FrameAdded(frames: seq<Frame>, f: Frame)
    requires OnlyErrorsAfterExit(frames) && (ExitSent(frames) ==> f.Error?)
    ensures OnlyErrorsAfterExit(frames + [f])
    ensures ExitSent(frames + [f]) <==> ExitSent(frames) || f.Exit?
    ensures Delivered(frames + [f]) == if f.Data? then Delivered(frames) + [f.chunk] else Delivered(frames)
  {
    assert (frames + [f])[..|frames|] == frames;
  }

  /** Position by position: what comes after an exit frame is an error frame. */
  lemma {:induction false} AfterExit(frames: seq<Frame>, i: nat, j: nat)
    requires OnlyErrorsAfterExit(frames) && i < j < |frames| && frames[i].Exit?
    ensures frames[j].Error? && ExitSent(frames[..j])
    decreases |frames|
  {
    var init := frames[..|frames| - 1];
    if j < |init| {
      AfterExit(init, i, j);
      assert init[..j] == frames[..j];
    } else {
      ExitAt(init, i);
    }
  }

  lemma {:induction false} ExitAt(frames: seq<Frame>, i: nat)
    requires i < |frames| && frames[i].Exit?
    ensures ExitSent(frames)
    decreases |frames|
  {
    if i < |frames| - 1 {
      ExitAt(frames[..|frames| - 1], i);
    }
  }

  /** What the pump has done with the chunks it took. */
  ghost predicate WrittenInv(c: ClientState, taken: seq<Chunk>) {
    && (c.failed ==> c.pump == PumpEnded)
    && (c.pump.Writing? ==> taken == Delivered(c.frames) + [c.pump.chunk])
    && (c.failed ==> |taken| == |Delivered(c.frames)| + 1 && Delivered(c.frames) <= taken)
    && (!c.pump.Writing? && !c.failed ==> taken == Delivered(c.frames))
  }

  /** How far the pump is with the exit. */
  predicate Exiting(c: ClientState) {
    c.pump.Draining? || c.pump.SendingExit? || c.pump.ClosingConnection? || ExitSent(c.frames)
    || (c.pump.Writing? && c.pump.exiting)
  }

  ghost predicate ExitInv(c: ClientState) {
    && OnlyErrorsAfterExit(c.frames)
    && (ExitSent(c.frames) ==> (c.pump == ClosingConnection || c.pump == PumpEnded) && !c.failed)
    && (c.pump == PumpEnded && ExitSent(c.frames) ==> c.closed)
  }

  ghost predicate EndInv(c: ClientState, feed: FeedState, end: EndState) {
    && (Exiting(c) ==> end.finished)
    && ((c.pump.Looping? || c.pump.Draining?) && c.pump.drained ==> feed.outCloses > 0 && feed.out == [])
    && ((c.pump.SendingExit? || c.pump.ClosingConnection? || ExitSent(c.frames)) && end.readerFirst ==> feed.out == [])
    && (end.readerFirst ==> end.finished && feed.outCloses > 0)
  }

  ghost predicate Inv(s: Session) {
    && CloseInv(s.close, s.end) && ReadInv(s.feed, s.close.closing > 0)
    && WrittenInv(s.client, s.feed.taken) && ExitInv(s.client) && EndInv(s.client, s.feed, s.end)
  }

  lemma ReaderKeeps(s: Session, e: Event)
    requires Inv(s) && Enabled(s, e) && OfReader(e)
    ensures Inv(Step(s, e))
  {
  }

  lemma ReaperKeeps(s: Session, e: Event)
    requires Inv(s) && Enabled(s, e) && OfReaper(e)
    ensures Inv(Step(s, e))
  {
  }

  /** A closer comes, and finds out whether it is the first. */
  lemma TryKeepsClose(s: Session, e: Event)
    requires CloseInv(s.close, s.end) && Enabled(s, e) && (e.AskClose? || e.TryClose?)
    ensures CloseInv(StepCloser(s, e).close, StepCloser(s, e).end)
  {
  }

  /** The winner goes on; nobody else is past the flag. */
  lemma WinnerKeepsClose(s: Session, e: Event)
    requires CloseInv(s.close, s.end) && Enabled(s, e) && OfCloser(e) && !e.AskClose? && !e.TryClose?
    ensures CloseInv(StepCloser(s, e).close, StepCloser(s, e).end)
  {
    assert s.close.winner == Some(e.n);
    assert WinnerRank(StepCloser(s, e).close) == Rank(StepCloser(s, e).close.closers[e.n]);
  }

  lemma CloserKeepsClose(s: Session, e: Event)
    requires CloseInv(s.close, s.end) && Enabled(s, e) && OfCloser(e)
    ensures CloseInv(StepCloser(s, e).close, StepCloser(s, e).end)
  {
    if e.AskClose? || e.TryClose? {
      TryKeepsClose(s, e);
    } else {
      WinnerKeepsClose(s, e);
    }
  }

  /** To the reader and the pump, a closer only ever sets flags that stay set. */
  lemma CloserOnlySetsFlags(s: Session, e: Event)
    requires CloseInv(s.close, s.end) && Enabled(s, e) && OfCloser(e)
    ensures var t := StepCloser(s, e);
            && t.feed == s.feed && t.client == s.client && t.close.closing >= s.close.closing && (s.end.finished ==> t.end.finished)
            && t.end.readerFirst == if t.end.finished && !s.end.finished then s.feed.outCloses > 0 else s.end.readerFirst
  {
  }

  lemma CloserKeeps(s: Session, e: Event)
    requires Inv(s) && Enabled(s, e) && OfCloser(e)
    ensures Inv(Step(s, e))
  {
    CloserKeepsClose(s, e);
    CloserOnlySetsFlags(s, e);
  }

  lemma PumpKeepsRead(s: Session, e: Event)
    requires ReadInv(s.feed, s.close.closing > 0) && Enabled(s, e) && OfPump(e)
    ensures ReadInv(StepQueue(s.feed, e), s.close.closing > 0)
  {
  }

  /** A chunk goes out, or its write fails. */
  lemma WriteKeeps(c: ClientState, feed: FeedState, end: EndState, exit: Frame, e: Event)
    requires WrittenInv(c, feed.taken) && ExitInv(c) && EndInv(c, feed, end)
    requires (e.WriteOk? || e.WriteFails?) && c.pump.Writing?
    ensures var d := StepPump(c, feed, exit, e); WrittenInv(d, feed.taken) && ExitInv(d) && EndInv(d, feed, end)
  {
    FrameAdded(c.frames, Data(c.pump.chunk));
  }

  /** The exit frame goes out, or its write fails, or the connection is closed after it. */
  lemma ExitKeeps(c: ClientState, feed: FeedState, end: EndState, exit: Frame, e: Event)
    requires WrittenInv(c, feed.taken) && ExitInv(c) && EndInv(c, feed, end) && exit.Exit?
    requires e.WriteExit? || e.WriteExitFails? || e.CloseConnection?
    requires c.pump == if e.CloseConnection? then ClosingConnection else SendingExit
    ensures var d := StepPump(c, feed, exit, e); WrittenInv(d, feed.taken) && ExitInv(d) && EndInv(d, feed, end)
  {
    if e.WriteExit? {
      FrameAdded(c.frames, exit);
    }
  }

  /** The pump's other steps write nothing. */
  lemma PumpMoves(s: Session, e: Event)
    requires Inv(s) && Enabled(s, e) && OfPump(e)
    requires !e.WriteOk? && !e.WriteFails? && !e.WriteExit? && !e.WriteExitFails? && !e.CloseConnection?
    ensures var t := Step(s, e); WrittenInv(t.client, t.feed.taken) && ExitInv(t.client) && EndInv(t.client, t.feed, t.end)
  {
  }

  lemma PumpKeeps(s: Session, e: Event)
    requires Inv(s) && Enabled(s, e) && OfPump(e)
    ensures Inv(Step(s, e))
  {
    PumpKeepsRead(s, e);
    var exit := Exit(s.end.exitCode, s.close.reason);
    if e.WriteOk? || e.WriteFails? {
      WriteKeeps(s.client, s.feed, s.end, exit, e);
    } else if e.WriteExit? || e.WriteExitFails? || e.CloseConnection? {
      ExitKeeps(s.client, s.feed, s.end, exit, e);
    } else {
      PumpMoves(s, e);
    }
  }

  lemma LoopKeepsClient(c: ClientState, feed: FeedState, end: EndState, e: Event)
    requires WrittenInv(c, feed.taken) && ExitInv(c) && EndInv(c, feed, end)
    requires OfLoop(e) && (e.WriteError? ==> c.loop.Complaining?)
    ensures var d := StepLoop(c, e); WrittenInv(d, feed.taken) && ExitInv(d) && EndInv(d, feed, end)
  {
    if e.WriteError? {
      FrameAdded(c.frames, Error(c.loop.message));
    }
  }

  lemma LoopKeeps(s: Session, e: Event)
    requires Inv(s) && Enabled(s, e) && OfLoop(e)
    ensures Inv(Step(s, e))
  {
    LoopKeepsClient(s.client, s.feed, s.end, e);
  }

  lemma StepKeepsInv(s: Session, e: Event)
    requires Inv(s) && Enabled(s, e)
    ensures Inv(Step(s, e))
  {
    if OfReader(e) {
      ReaderKeeps(s, e);
    } else if OfReaper(e) {
      ReaperKeeps(s, e);
    } else if OfCloser(e) {
      CloserKeeps(s, e);
    } else if OfLoop(e) {
      LoopKeeps(s, e);
    } else {
      PumpKeeps(s, e);
    }
  }

  lemma {:induction false} RunKeepsInv(s: Session, es: seq<Event>)
    requires Inv(s) && Possible(s, es)
    ensures Inv(Run(s, es))
    decreases |es|
  {
    if es != [] {
      StepKeepsInv(s, es[0]);
      RunKeepsInv(Step(s, es[0]), es[1..]);
    }
  }

  // ----------------------------------------------------------------- guarantees

  /** Under every interleaving no channel is closed twice, and at most one audit entry is written. */
  lemma ClosedOnce(es: seq<Event>)
    requires Possible(OPENED, es)
    ensures var s := Run(OPENED, es);
            s.close.closing <= 1 && s.end.done <= 1 && s.feed.outCloses <= 1 && s.feed.readDone <= 1 && s.close.audits <= 1
  {
    RunKeepsInv(OPENED, es);
  }

  /** At most one closer wins, and only the winner goes on. */
  lemma OneWinner(es: seq<Event>, n: nat, m: nat)
    requires Possible(OPENED, es)
    requires var s := Run(OPENED, es);
             n in s.close.closers && m in s.close.closers && Rank(s.close.closers[n]) > 0 && Rank(s.close.closers[m]) > 0
    ensures n == m
  {
    RunKeepsInv(OPENED, es);
  }

  /**
   When the winning close returns, the session is out of the map, its audit entry
   is written, and it is finished. done is closed by then, except exactly while
   the reaper sits between setting finished and closing done.
   */
  lemma WinningCloseReleases(es: seq<Event>, n: nat)
    requires Possible(OPENED, es) && At(Run(OPENED, es), n, ClosedSession)
    ensures var s := Run(OPENED, es);
            && !s.close.inMap && s.close.audits == 1 && s.end.finished
            && (s.end.done == 1 <==> s.end.reaper != ReaperClosingDone)
  {
    hide Possible, Run;
    RunKeepsInv(OPENED, es);
    assert Rank(ClosedSession) > 0;
  }

  /** That exception is reachable: the kill grace runs out while the reaper is about to close done. */
  lemma CloseMayReturnBeforeDone()
    ensures Possible(OPENED, REAPER_STALLS + CLOSER_RUNS)
    ensures var s := Run(OPENED, REAPER_STALLS + CLOSER_RUNS);
            At(s, 0, ClosedSession) && s.end.done == 0 && s.end.reaper == ReaperClosingDone
  {
    ReaperStallsThrough();
    CloserRunsThrough();
    RunConcat(OPENED, REAPER_STALLS, CLOSER_RUNS);
  }

  lemma ReaperStallsThrough()
    ensures Possible(OPENED, REAPER_STALLS) && Run(OPENED, REAPER_STALLS) == STALLED
  {
    var s1 := Step(OPENED, ShellExits(0));
    var s2 := Step(s1, StopDraining);
    assert REAPER_STALLS[1..] == [StopDraining, ReaperFinish] && REAPER_STALLS[1..][1..] == [ReaperFinish];
    assert [ReaperFinish][1..] == [];
    assert Step(s2, ReaperFinish) == STALLED;
  }

  const REAPER_STALLS := [ShellExits(0), StopDraining, ReaperFinish]

  const STALLED := OPENED.(end := OPENED.end.(finished := true, reaper := ReaperClosingDone))

  const CLOSER_RUNS := [AskClose(0, ""), TryClose(0), CloseClosing(0), GraceOver(0), CloserFinish(0), Unmap(0), Audit(0)]

  lemma CloserRunsThrough()
    ensures Possible(STALLED, CLOSER_RUNS)
    ensures var s := Run(STALLED, CLOSER_RUNS);
            At(s, 0, ClosedSession) && s.end.done == 0 && s.end.reaper == ReaperClosingDone
  {
    var late := [GraceOver(0), CloserFinish(0), Unmap(0), Audit(0)];
    var s3 := Step(Step(Step(STALLED, AskClose(0, "")), TryClose(0)), CloseClosing(0));
    assert s3.end == STALLED.end && At(s3, 0, Terminating);
    CloserEnds(s3);
    assert CLOSER_RUNS[1..][1..][1..] == late;
  }

  lemma CloserEnds(s: Session)
    requires s.end.finished && At(s, 0, Terminating)
    ensures var late := [GraceOver(0), CloserFinish(0), Unmap(0), Audit(0)];
            && Possible(s, late)
            && At(Run(s, late), 0, ClosedSession) && Run(s, late).end == s.end
  {
    var s1 := Step(s, GraceOver(0));
    var s2 := Step(s1, CloserFinish(0));
    var s3 := Step(s2, Unmap(0));
    var late := [GraceOver(0), CloserFinish(0), Unmap(0), Audit(0)];
    assert late[1..] == [CloserFinish(0), Unmap(0), Audit(0)];
    assert late[1..][1..] == [Unmap(0), Audit(0)];
    assert late[1..][1..][1..] == [Audit(0)];
    assert [Audit(0)][1..] == [];
  }

  lemma {:induction false} RunConcat(s: Session, a: seq<Event>, b: seq<Event>)
    requires Possible(s, a) && Possible(Run(s, a), b)
    ensures Possible(s, a + b) && Run(s, a + b) == Run(Run(s, a), b)
    decreases |a|
  {
    if a == [] {
      assert a + b == b;
    } else {
      assert (a + b)[1..] == a[1..] + b;
      RunConcat(Step(s, a[0]), a[1..], b);
    }
  }

  /** What the client got is an in-order prefix of what was read, and no chunk follows the exit frame. */
  lemma DeliveryIsAPrefix(es: seq<Event>)
    requires Possible(OPENED, es)
    ensures var s := Run(OPENED, es);
            && Delivered(s.client.frames) <= s.feed.read
            && forall i, j :: 0 <= i < j < |s.client.frames| && s.client.frames[i].Exit? ==> s.client.frames[j].Error?
  {
    RunKeepsInv(OPENED, es);
    var s := Run(OPENED, es);
    DeliveredIsRead(s);
    forall i, j | 0 <= i < j < |s.client.frames| && s.client.frames[i].Exit?
      ensures s.client.frames[j].Error?
    {
      AfterExit(s.client.frames, i, j);
    }
  }

  /** Nothing reaches the client any more: the connection is closed, or the read loop is through. */
  predicate Quiet(c: ClientState) {
    c.closed || c.loop == LoopEnded
  }

  lemma {:induction false} QuietStays(s: Session, es: seq<Event>)
    requires Inv(s) && ExitSent(s.client.frames) && Quiet(s.client) && Possible(s, es)
    ensures Run(s, es).client.frames == s.client.frames
    decreases |es|
  {
    if es != [] {
      StepKeepsInv(s, es[0]);
      QuietStep(s, es[0]);
      QuietStays(Step(s, es[0]), es[1..]);
    }
  }

  lemma QuietStep(s: Session, e: Event)
    requires ExitInv(s.client) && ExitSent(s.client.frames) && Quiet(s.client) && Enabled(s, e)
    ensures Step(s, e).client.frames == s.client.frames && Quiet(Step(s, e).client)
  {
    hide StepReader, StepQueue;
    if OfReaper(e) || OfCloser(e) {
      assert Step(s, e).client == s.client;
    }
  }

  /** What the read loop may still do to the connection. */
  function Complaint(c: ClientState): seq<Event> {
    if c.loop == Listening then [Complain("unsupported control frame"), WriteError] else [WriteError]
  }

  lemma ComplaintIsWritten(s: Session)
    requires !Quiet(s.client)
    ensures Possible(s, Complaint(s.client)) && |Run(s, Complaint(s.client)).client.frames| == |s.client.frames| + 1
    ensures Run(s, Complaint(s.client)).client.frames[|s.client.frames|].Error?
  {
    assert [WriteError][1..] == [];
    if s.client.loop == Listening {
      assert Complaint(s.client)[1..] == [WriteError];
    }
  }

  /**
   When the exit frame is the last one for good: of a session whose exit frame is
   out, no continuation writes anything more if and only if its connection is
   closed or its read loop has ended. Otherwise an error frame may come after it.
   */
  lemma ExitIsLastExactly(es: seq<Event>)
    requires Possible(OPENED, es) && ExitSent(Run(OPENED, es).client.frames)
    ensures var s := Run(OPENED, es);
            (forall more :: Possible(s, more) ==> Run(s, more).client.frames == s.client.frames) <==> Quiet(s.client)
  {
    RunKeepsInv(OPENED, es);
    var s := Run(OPENED, es);
    if Quiet(s.client) {
      forall more | Possible(s, more)
        ensures Run(s, more).client.frames == s.client.frames
      {
        QuietStays(s, more);
      }
    } else {
      ComplaintIsWritten(s);
    }
  }

  const SHELL_ENDS := [ShellExits(0), StopDraining, ReaperFinish, ReaperCloseDone, SeeDone, DrainEnds, WriteExit]

  const EXIT_WRITTEN := OPENED.(
    end := EndState(true, 0, 1, ReaperEnded, false),
    client := OPENED.client.(pump := ClosingConnection, frames := [Exit(0, "")]))

  lemma ShellEndsThrough()
    ensures Possible(OPENED, SHELL_ENDS) && Run(OPENED, SHELL_ENDS) == EXIT_WRITTEN
  {
    var finish := [SeeDone, DrainEnds, WriteExit];
    var s3 := Step(Step(Step(OPENED, ShellExits(0)), StopDraining), ReaperFinish);
    var s4 := Step(s3, ReaperCloseDone);
    assert SHELL_ENDS[1..][1..][1..][1..] == finish;
    assert s4.feed == OPENED.feed && s4.client == OPENED.client && s4.end.done == 1;
    PumpReports(s4);
  }

  lemma PumpReports(s: Session)
    requires s.feed == OPENED.feed && s.client == OPENED.client && s.end.done > 0
    ensures var finish := [SeeDone, DrainEnds, WriteExit];
            && Possible(s, finish)
            && Run(s, finish) == s.(client := s.client.(pump := ClosingConnection, frames := [Exit(s.end.exitCode, s.close.reason)]))
  {
    hide Step, Enabled;
    PumpSteps(s);
    assert [SeeDone, DrainEnds, WriteExit][1..] == [DrainEnds, WriteExit];
    assert [DrainEnds, WriteExit][1..] == [WriteExit] && [WriteExit][1..] == [];
    var s1 := Step(s, SeeDone);
    var s2 := Step(s1, DrainEnds);
    assert Possible(s2, [WriteExit]) && Run(s2, [WriteExit]) == Step(s2, WriteExit);
    assert Possible(s1, [DrainEnds, WriteExit]) && Run(s1, [DrainEnds, WriteExit]) == Step(s2, WriteExit);
  }

  lemma PumpSteps(s: Session)
    requires s.feed == OPENED.feed && s.client == OPENED.client && s.end.done > 0
    ensures Enabled(s, SeeDone)
    ensures var s1 := Step(s, SeeDone);
            Enabled(s1, DrainEnds) &&
            var s2 := Step(s1, DrainEnds);
            && Enabled(s2, WriteExit)
            && Step(s2, WriteExit)
               == s.(client := s.client.(pump := ClosingConnection, frames := [Exit(s.end.exitCode, s.close.reason)]))
  {
  }

  /** A run in which it does: the client breaks the protocol while the exit frame is on its way. */
  lemma ErrorMayFollowExit()
    ensures Possible(OPENED, SHELL_ENDS + Complaint(EXIT_WRITTEN.client))
    ensures var frames := Run(OPENED, SHELL_ENDS + Complaint(EXIT_WRITTEN.client)).client.frames;
            |frames| == 2 && frames[0] == Exit(0, "") && frames[1].Error?
  {
    ShellEndsThrough();
    ComplaintIsWritten(EXIT_WRITTEN);
    FramesOnlyGrow(EXIT_WRITTEN, Complaint(EXIT_WRITTEN.client));
    RunConcat(OPENED, SHELL_ENDS, Complaint(EXIT_WRITTEN.client));
  }

  lemma {:induction false} FramesOnlyGrow(s: Session, es: seq<Event>)
    requires Possible(s, es)
    ensures s.client.frames <= Run(s, es).client.frames
    decreases |es|
  {
    if es != [] {
      FramesOnlyGrow(Step(s, es[0]), es[1..]);
    }
  }

  lemma DeliveredIsRead(s: Session)
    requires Inv(s)
    ensures Delivered(s.client.frames) <= s.feed.read
  {
    assert Delivered(s.client.frames) <= s.feed.taken;
    assert s.feed.taken <= s.feed.queued;
  }

  /**
   Once the exit frame is out, everything read was delivered exactly when nothing
   is left in the queue, the reader holds nothing, and it never dropped a chunk.
   */
  lemma DeliveredAllWhen(es: seq<Event>)
    requires Possible(OPENED, es) && ExitSent(Run(OPENED, es).client.frames)
    ensures var s := Run(OPENED, es);
            Delivered(s.client.frames) == s.feed.read <==> s.feed.out == [] && !s.feed.reader.Holding? && !s.feed.dropped
  {
    RunKeepsInv(OPENED, es);
    var s := Run(OPENED, es);
    assert |s.feed.taken| + |s.feed.out| == |s.feed.queued|;
  }

  /** All output is delivered when the reader ended before finish, no close intervened and no write failed. */
  lemma NormalExitDeliversAll(es: seq<Event>)
    requires Possible(OPENED, es)
    requires var s := Run(OPENED, es); ExitSent(s.client.frames) && s.end.readerFirst && !s.close.closed
    ensures Delivered(Run(OPENED, es).client.frames) == Run(OPENED, es).feed.read
  {
    RunKeepsInv(OPENED, es);
    DeliveredAllWhen(es);
  }

  /** A reaper that waited for the reader, with no close around, finishes after the reader ended. */
  lemma WaitingReaperIsReaderFirst(s: Session)
    requires Inv(s) && s.end.reaper.ReaperFinishing? && s.feed.readDone > 0 && !s.end.finished
    ensures Step(s, ReaperFinish).end.readerFirst
  {
  }

  // ------------------------------------------------------- what the exit frame says

  /** Which finish came first: the reaper's, or a closer's. */
  function FirstFinish(es: seq<Event>): (r: Option<Event>)
    ensures r.Some? ==> r.value.ReaperFinish? || r.value.CloserFinish?
  {
    if es == [] then None
    else if es[0].ReaperFinish? || es[0].CloserFinish? then Some(es[0])
    else FirstFinish(es[1..])
  }

  /** The code the shell exits with, or has exited with already. */
  function ShellCode(reaper: Reaper, es: seq<Event>): int {
    match reaper
    case Exited(code) => code
    case ReaperFinishing(code) => code
    case _ => ExitIn(es)
  }

  function ExitIn(es: seq<Event>): int {
    if es == [] then 0 else if es[0].ShellExits? then es[0].code else ExitIn(es[1..])
  }

  lemma {:induction false} CodeFollows(s: Session, es: seq<Event>)
    requires Possible(s, es)
    ensures var after := Run(s, es).end;
            && (after.finished <==> s.end.finished || FirstFinish(es).Some?)
            && after.exitCode == (if s.end.finished || FirstFinish(es).None? || FirstFinish(es).value.CloserFinish?
                                  then s.end.exitCode else ShellCode(s.end.reaper, es))
    decreases |es|
  {
    hide Step, Enabled;
    if es != [] {
      StepEnd(s, es[0]);
      CodeFollows(Step(s, es[0]), es[1..]);
    }
  }

  /** What one step does to the end of the shell, as far as the code goes. */
  lemma StepEnd(s: Session, e: Event)
    requires Enabled(s, e)
    ensures var t := Step(s, e).end;
            && (t.finished <==> s.end.finished || e.ReaperFinish? || e.CloserFinish?)
            && (s.end.finished || !e.ReaperFinish? ==> t.exitCode == s.end.exitCode)
            && (e.ReaperFinish? ==> s.end.reaper.ReaperFinishing? && (!s.end.finished ==> t.exitCode == s.end.reaper.code))
            && (e.ShellExits? ==> s.end.reaper == Waiting && t.reaper == Exited(e.code))
            && (s.end.reaper.Exited? ==> t.reaper == s.end.reaper || t.reaper == ReaperFinishing(s.end.reaper.code))
            && (s.end.reaper.ReaperFinishing? && !e.ReaperFinish? ==> t.reaper == s.end.reaper)
            && (!s.end.reaper.Exited? && !s.end.reaper.ReaperFinishing? && !e.ShellExits? ==>
                  !t.reaper.Exited? && !t.reaper.ReaperFinishing?)
  {
  }

  ghost predicate ExitsCarry(s: Session) {
    forall i :: 0 <= i < |s.client.frames| && s.client.frames[i].Exit? ==>
      s.end.finished && s.client.frames[i].code == s.end.exitCode
  }

  lemma {:induction false} ExitsKeepCarrying(s: Session, es: seq<Event>)
    requires Inv(s) && ExitsCarry(s) && Possible(s, es)
    ensures ExitsCarry(Run(s, es))
    decreases |es|
  {
    if es != [] {
      StepKeepsInv(s, es[0]);
      StepEnd(s, es[0]);
      StepFrames(s, es[0]);
      ExitsKeepCarrying(Step(s, es[0]), es[1..]);
    }
  }

  lemma StepFrames(s: Session, e: Event)
    requires Enabled(s, e) && EndInv(s.client, s.feed, s.end)
    ensures var t := Step(s, e);
            && s.client.frames <= t.client.frames
            && (e.WriteExit? ==> s.end.finished && t.client.frames == s.client.frames + [Exit(s.end.exitCode, s.close.reason)])
            && (!e.WriteExit? ==> forall i :: |s.client.frames| <= i < |t.client.frames| ==> !t.client.frames[i].Exit?)
  {
    hide StepReader, StepQueue;
    if OfReaper(e) || OfCloser(e) {
      assert Step(s, e).client == s.client;
    }
  }

  /**
   The exit frame carries the shell's own code, exactly as far as the reaper was the
   first to finish the session; a closer that was carries 0.
   */
  lemma ExitCarriesTheShellsCode(es: seq<Event>, i: nat)
    requires Possible(OPENED, es) && i < |Run(OPENED, es).client.frames| && Run(OPENED, es).client.frames[i].Exit?
    ensures FirstFinish(es).Some?
    ensures Run(OPENED, es).client.frames[i].code
            == if FirstFinish(es) == Some(ReaperFinish) then ExitIn(es) else 0
  {
    assert Inv(OPENED);
    ExitsKeepCarrying(OPENED, es);
    CodeFollows(OPENED, es);
  }

  /** Of a close that was won the reason is its winner's; before that there is none. */
  ghost predicate ReasonFrom(c: CloseState, past: seq<Event>) {
    && (if c.closed then c.winner.Some? && AskClose(c.winner.value, c.reason) in past else c.reason == "")
    && forall n :: n in c.closers && c.closers[n].Asking? ==> AskClose(n, c.closers[n].reason) in past
  }

  lemma ReasonStep(s: Session, e: Event, past: seq<Event>)
    requires Enabled(s, e) && ReasonFrom(s.close, past)
    ensures ReasonFrom(Step(s, e).close, past + [e])
    ensures s.close.closed ==> Step(s, e).close.reason == s.close.reason
  {
    hide StepReader, StepQueue, StepLoop, StepPump;
  }

  lemma {:induction false} ReasonRun(s: Session, es: seq<Event>, past: seq<Event>)
    requires Possible(s, es) && ReasonFrom(s.close, past)
    ensures ReasonFrom(Run(s, es).close, past + es)
    decreases |es|
  {
    if es == [] {
      assert past + es == past;
    } else {
      ReasonStep(s, es[0], past);
      ReasonRun(Step(s, es[0]), es[1..], past + [es[0]]);
      assert past + [es[0]] + es[1..] == past + es;
    }
  }

  /** The exit frame is written with the reason the winning closer asked with, or with none before a close was won. */
  lemma ExitCarriesTheWinnersReason(es: seq<Event>) returns (reason: string)
    requires Possible(OPENED, es) && Enabled(Run(OPENED, es), WriteExit)
    ensures var s := Run(OPENED, es);
            && Step(s, WriteExit).client.frames == s.client.frames + [Exit(s.end.exitCode, reason)]
            && WinnersReason(s.close, es, reason)
  {
    hide Step, WinnersReason;
    RunKeepsInv(OPENED, es);
    ReasonRun(OPENED, es, []);
    reason := ExitWritten(Run(OPENED, es), es);
  }

  /** What the closer that won asked with, or nothing while none has. */
  ghost predicate WinnersReason(c: CloseState, es: seq<Event>, reason: string) {
    if c.closed then c.winner.Some? && AskClose(c.winner.value, reason) in es else reason == ""
  }

  lemma ExitWritten(s: Session, es: seq<Event>) returns (reason: string)
    requires Enabled(s, WriteExit) && EndInv(s.client, s.feed, s.end) && ReasonFrom(s.close, [] + es)
    ensures Step(s, WriteExit).client.frames == s.client.frames + [Exit(s.end.exitCode, reason)]
    ensures WinnersReason(s.close, es, reason)
  {
    hide Enabled, Step;
    StepFrames(s, WriteExit);
    assert [] + es == es;
    reason := s.close.reason;
  }

  // ------------------------------------------------------------------ the manager

  const DEFAULT_MAX_SESSIONS := 2

  function SessionCap(maxSessions: int): int {
    if maxSessions <= 0 then DEFAULT_MAX_SESSIONS else maxSessions
  }

  datatype OpenError = TooMany | StartFailed

  /** Owns the live sessions. */
  class TerminalManager {
    var sessions: set<string>

    constructor ()
      ensures sessions == {}
    {
      sessions := {};
    }

    /** Registers a session under a fresh id once its shell has started; refused at the cap. */
    method Open(maxSessions: int, id: string, starts: bool) returns (r: Option<OpenError>)
      requires id !in sessions
      modifies this
      ensures r == if |old(sessions)| >= SessionCap(maxSessions) then Some(TooMany)
                   else if !starts then Some(StartFailed) else None
      ensures sessions == if r.None? then old(sessions) + {id} else old(sessions)
      ensures |old(sessions)| <= SessionCap(maxSessions) ==> |sessions| <= SessionCap(maxSessions)
    {
      var limit := maxSessions;
      if limit <= 0 {
        limit := DEFAULT_MAX_SESSIONS;
      }
      if |sessions| >= limit {
        return Some(TooMany);
      }
      if !starts {
        return Some(StartFailed);
      }
      sessions := sessions + {id};
      return None;
    }

    /** What the winning close does to the map. */
    method Remove(id: string)
      modifies this
      ensures sessions == old(sessions) - {id}
      ensures |sessions| <= |old(sessions)|
    {
      sessions := sessions - {id};
    }
  }

  // ------------------------------------------- the manager's map and its sessions

  /** Every session ever opened, each at its own point. */
  type House = map<string, Session>

  datatype HouseEvent = Opens(id: string) | Steps(id: string, e: Event)

  /** The sessions the manager's map names. */
  function Mapped(h: House): set<string> {
    set id | id in h && h[id].close.inMap
  }

  predicate HouseEnabled(h: House, maxSessions: int, e: HouseEvent) {
    match e
    case Opens(id) => id !in h && |Mapped(h)| < SessionCap(maxSessions)
    case Steps(id, step) => id in h && Enabled(h[id], step)
  }

  function HouseStep(h: House, maxSessions: int, e: HouseEvent): House
    requires HouseEnabled(h, maxSessions, e)
  {
    match e
    case Opens(id) => h[id := OPENED]
    case Steps(id, step) => h[id := Step(h[id], step)]
  }

  /** Opening adds a session to the map, the unmap of its close removes it, and no other step of any thread touches the map. */
  lemma MapFollowsSessions(h: House, maxSessions: int, e: HouseEvent)
    requires HouseEnabled(h, maxSessions, e)
    ensures Mapped(HouseStep(h, maxSessions, e))
            == if e.Opens? then Mapped(h) + {e.id} else if e.e.Unmap? then Mapped(h) - {e.id} else Mapped(h)
  {
    hide Step, Mapped;
    match e
    case Opens(id) => MappedNow(h, id, OPENED);
    case Steps(id, step) =>
      OnlyUnmapUnmaps(h[id], step);
      MappedNow(h, id, Step(h[id], step));
      MappedNow(h, id, h[id]);
      assert h[id := h[id]] == h;
  }

  lemma OnlyUnmapUnmaps(s: Session, e: Event)
    requires Enabled(s, e)
    ensures Step(s, e).close.inMap == (s.close.inMap && !e.Unmap?)
  {
  }

  lemma MappedNow(h: House, id: string, s: Session)
    ensures Mapped(h[id := s]) == if s.close.inMap then Mapped(h) + {id} else Mapped(h) - {id}
  {
  }

  ghost predicate HousePossible(h: House, maxSessions: int, es: seq<HouseEvent>)
    decreases |es|
  {
    es != [] ==> HouseEnabled(h, maxSessions, es[0]) && HousePossible(HouseStep(h, maxSessions, es[0]), maxSessions, es[1..])
  }

  function HouseRun(h: House, maxSessions: int, es: seq<HouseEvent>): House
    requires HousePossible(h, maxSessions, es)
    decreases |es|
  {
    if es == [] then h else HouseRun(HouseStep(h, maxSessions, es[0]), maxSessions, es[1..])
  }

  ghost predicate HouseInv(h: House, maxSessions: int) {
    |Mapped(h)| <= SessionCap(maxSessions) && forall id :: id in h ==> Inv(h[id])
  }

  /**
   However opens and the threads of all sessions interleave, the map names at most
   as many sessions as the cap, and it names a session exactly until its winning
   close has unmapped it.
   */
  lemma {:induction false} MapStaysWithinCap(h: House, maxSessions: int, es: seq<HouseEvent>)
    requires HouseInv(h, maxSessions) && HousePossible(h, maxSessions, es)
    ensures var after := HouseRun(h, maxSessions, es);
            && HouseInv(after, maxSessions)
            && forall id :: id in after ==> (id in Mapped(after) <==> WinnerRank(after[id].close) < 6)
    decreases |es|
  {
    if es != [] {
      MapFollowsSessions(h, maxSessions, es[0]);
      HouseStepKeeps(h, maxSessions, es[0]);
      MapStaysWithinCap(HouseStep(h, maxSessions, es[0]), maxSessions, es[1..]);
    }
  }

  lemma HouseStepKeeps(h: House, maxSessions: int, e: HouseEvent)
    requires HouseInv(h, maxSessions) && HouseEnabled(h, maxSessions, e)
    ensures HouseInv(HouseStep(h, maxSessions, e), maxSessions)
  {
    hide Inv, Step, Mapped, Enabled;
    MapFollowsSessions(h, maxSessions, e);
    OpenedInv();
    match e
    case Opens(id) =>
    case Steps(id, step) =>
      StepKeepsInv(h[id], step);
      if step.Unmap? {
        FewerMapped(Mapped(h), id);
      }
  }

  lemma OpenedInv()
    ensures Inv(OPENED)
  {
  }

  lemma FewerMapped(mapped: set<string>, id: string)
    ensures |mapped - {id}| <= |mapped|
  {
    if id in mapped {
      assert mapped == (mapped - {id}) + {id};
    } else {
      assert mapped - {id} == mapped;
    }
  }
}
