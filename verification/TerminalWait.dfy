/**
 The daemon's long-poll for terminal sessions. A poll registers, lists, and only
 then parks, so that a session created while it lists leaves a token in its
 buffered channel. Registrations live in a map that is pruned of entries that
 have gone quiet.
 */
module TerminalWait {
  import opened Wrappers
  import opened Sequences
  import opened Selection

  const PRUNE_ABOVE: nat := 10_000
  const QUIET_SECONDS := 3600

  /** A registration: which channel it owns, and when it was last registered. */
  datatype Waiter = Waiter(channel: nat, at: int)

  /** A buffered channel of size one, made for one daemon. */
  datatype Channel = Channel(owner: string, token: bool)

  /** The registrations, and every channel ever made. */
  datatype Board = Board(waiters: map<string, Waiter>, channels: seq<Channel>)

  predicate Owns(b: Board, d: string, channel: nat) {
    channel < |b.channels| && b.channels[channel].owner == d
  }

  predicate BoardOk(b: Board) {
    forall d :: d in b.waiters ==> Owns(b, d, b.waiters[d].channel)
  }

  function Token(b: Board, channel: nat): bool {
    channel < |b.channels| && b.channels[channel].token
  }

  function SetToken(b: Board, channel: nat, token: bool): Board {
    if channel < |b.channels| then b.(channels := b.channels[channel := b.channels[channel].(token := token)]) else b
  }

  /** A create wakes the daemon's poll, if one is registered; a second token is dropped. */
  function Woken(b: Board, d: string): Board {
    if d in b.waiters then SetToken(b, b.waiters[d].channel, true) else b
  }

  /** A registration left behind by an earlier poll is taken over, channel and all. */
  function Registered(b: Board, d: string, now: int): Board {
    if d in b.waiters then b.(waiters := b.waiters[d := b.waiters[d].(at := now)])
    else Board(b.waiters[d := Waiter(|b.channels|, now)], b.channels + [Channel(d, false)])
  }

  function Dropped(b: Board, d: string, channel: nat): Board {
    if d in b.waiters && b.waiters[d].channel == channel then b.(waiters := b.waiters - {d}) else b
  }

  function QuietSince(w: map<string, Waiter>, cutoff: int): set<string> {
    set d | d in w && w[d].at < cutoff
  }

  function Pruned(b: Board, now: int, pruneAbove: nat): Board {
    if |b.waiters| > pruneAbove then b.(waiters := b.waiters - QuietSince(b.waiters, now - QUIET_SECONDS)) else b
  }

  function Released(b: Board, d: string, channel: nat, now: int, pruneAbove: nat): Board {
    Pruned(Dropped(b, d, channel), now, pruneAbove)
  }

  /** A park that finds a token takes it. */
  function Taken(b: Board, channel: nat): Board {
    SetToken(b, channel, false)
  }

  class TerminalWaiters {
    var waiters: map<string, Waiter>
    var channels: seq<Channel>

    ghost function State(): Board
      reads this
    {
      Board(waiters, channels)
    }

    ghost predicate Valid()
      reads this
    {
      BoardOk(State())
    }

    constructor ()
      ensures Valid() && State() == Board(map[], [])
    {
      waiters, channels := map[], [];
    }

    method WakeTerminalWaiters(d: string)
      requires Valid()
      modifies this
      ensures Valid() && State() == Woken(old(State()), d)
    {
      if d in waiters {
        var channel := waiters[d].channel;
        if !channels[channel].token {
          channels := channels[channel := channels[channel].(token := true)];
        }
      }
    }

    method TerminalWait(d: string, now: int) returns (channel: nat)
      requires Valid()
      modifies this
      ensures Valid() && State() == Registered(old(State()), d, now)
      ensures d in waiters && waiters[d] == Waiter(channel, now)
    {
      if d !in waiters {
        channel := |channels|;
        channels := channels + [Channel(d, false)];
        waiters := waiters[d := Waiter(channel, now)];
      } else {
        channel := waiters[d].channel;
        waiters := waiters[d := waiters[d].(at := now)];
      }
    }

    /** The park itself: a token is taken without waiting; without one, time runs out. */
    method Park(d: string, channel: nat, wait: bool, timerFirst: bool, now: int) returns (woken: bool)
      requires Valid() && channel < |channels|
      modifies this
      ensures Valid()
      ensures woken == (wait && !timerFirst && old(channels)[channel].token)
      ensures State() == Released(if woken then Taken(old(State()), channel) else old(State()), d, channel, now, PRUNE_ABOVE)
    {
      woken := wait && !timerFirst && channels[channel].token;
      if woken {
        channels := channels[channel := channels[channel].(token := false)];
      }
      ReleaseTerminalWait(d, channel, now);
    }

    method ReleaseTerminalWait(d: string, channel: nat, now: int)
      requires Valid()
      modifies this`waiters
      ensures Valid() && State() == Released(old(State()), d, channel, now, PRUNE_ABOVE)
    {
      if d in waiters && waiters[d].channel == channel {
        waiters := waiters - {d};
      }
      if |waiters| > PRUNE_ABOVE {
        PruneQuiet(now - QUIET_SECONDS);
      }
    }

    /** Walks the registrations and deletes the quiet ones. */
    method PruneQuiet(cutoff: int)
      modifies this`waiters
      ensures waiters == old(waiters) - QuietSince(old(waiters), cutoff)
    {
      var before := waiters;
      var left := waiters.Keys;
      while left != {}
        invariant left <= before.Keys
        invariant forall d :: d in waiters ==> d in before && waiters[d] == before[d]
        invariant forall d :: d in before ==> (d in waiters <==> d in left || before[d].at >= cutoff)
        decreases left
      {
        var d :| d in left;
        if before[d].at < cutoff {
          waiters := waiters - {d};
        }
        left := left - {d};
      }
    }
  }

  // ---------------------------------------------------------------- the machine

  const LIST_LIMIT: nat := 8

  /**
   An open poll: its channel, when it registered, which sessions its daemon had
   then, what its first list showed once it has listed, and whether its time is up:
   the timer is due, the request is gone, or no wait was wanted.
   */
  datatype Poll = Poll(channel: nat, since: int, before: set<string>, seen: Option<seq<string>>, due: bool)

  /** An inserted session, whether its creator has got round to the wake, and whether it waits for a pickup. */
  datatype Session = Session(daemon: string, woken: bool, waiting: bool, createdAt: int)

  datatype Machine = Machine(board: Board, polls: map<string, Poll>, sessions: map<string, Session>, clock: int)

  datatype Event =
    | Register(d: string)
    | List(d: string, ids: seq<string>) // the oldest that wait, up to the limit
    | ListFails(d: string)              // the handler returns without releasing
    | ParkTakes(d: string)              // the park returns true
    | TimeIsUp(d: string)
    | ParkEnds(d: string)               // the park returns false
    | Insert(id: string, d: string)     // a creator inserts the row ...
    | Wake(id: string)                  // ... and then wakes the daemon's poll
    | Settle(id: string, waiting: bool) // a session is offered, picked up or ended, or its lease is reclaimed
    | Tick(seconds: nat)

  /** The sessions of a daemon whose rows exist, and those of them that wait. */
  function SessionsOf(m: Machine, d: string): set<string> {
    set id | id in m.sessions && m.sessions[id].daemon == d
  }

  function WaitingOf(m: Machine, d: string): set<string> {
    set id | id in m.sessions && m.sessions[id].daemon == d && m.sessions[id].waiting
  }

  function CreatedOf(m: Machine): map<string, int> {
    map id | id in m.sessions :: m.sessions[id].createdAt
  }

  ghost predicate Enabled(m: Machine, e: Event) {
    match e
    case Register(d) => d !in m.polls
    case List(d, ids) =>
      d in m.polls && m.polls[d].seen.None? && Oldest(CreatedOf(m), WaitingOf(m, d), LIST_LIMIT, ids)
    case ListFails(d) => d in m.polls && m.polls[d].seen.None?
    case ParkTakes(d) => d in m.polls && m.polls[d].seen.Some? && Token(m.board, m.polls[d].channel)
    case TimeIsUp(d) => d in m.polls
    case ParkEnds(d) => d in m.polls && m.polls[d].seen.Some? && m.polls[d].due
    case Insert(id, _) => id !in m.sessions
    case Wake(id) => id in m.sessions && !m.sessions[id].woken
    case Settle(id, _) => id in m.sessions
    case Tick(_) => true
  }

  ghost function Step(m: Machine, e: Event, pruneAbove: nat): Machine
    requires Enabled(m, e)
  {
    match e
    case Register(d) =>
      var board := Registered(m.board, d, m.clock);
      m.(board := board, polls := m.polls[d := Poll(board.waiters[d].channel, m.clock, SessionsOf(m, d), None, false)])
    case List(d, ids) => m.(polls := m.polls[d := m.polls[d].(seen := Some(ids))])
    case ListFails(d) => m.(polls := m.polls - {d})
    case ParkTakes(d) =>
      m.(board := Released(Taken(m.board, m.polls[d].channel), d, m.polls[d].channel, m.clock, pruneAbove), polls := m.polls - {d})
    case TimeIsUp(d) => m.(polls := m.polls[d := m.polls[d].(due := true)])
    case ParkEnds(d) =>
      m.(board := Released(m.board, d, m.polls[d].channel, m.clock, pruneAbove), polls := m.polls - {d})
    case Insert(id, d) => m.(sessions := m.sessions[id := Session(d, false, true, m.clock)])
    case Wake(id) =>
      m.(board := Woken(m.board, m.sessions[id].daemon), sessions := m.sessions[id := m.sessions[id].(woken := true)])
    case Settle(id, waiting) => m.(sessions := m.sessions[id := m.sessions[id].(waiting := waiting)])
    case Tick(seconds) => m.(clock := m.clock + seconds)
  }

  /** A registration and a poll of a daemon hold a channel made for that daemon. */
  ghost predicate Shape(m: Machine) {
    && BoardOk(m.board)
    && (forall d :: d in m.polls ==> Owns(m.board, d, m.polls[d].channel) && m.polls[d].since <= m.clock)
  }

  /** The poll of d has not been open for more than the quiet period. */
  predicate Timely(m: Machine, d: string) {
    d in m.polls ==> m.clock <= m.polls[d].since + QUIET_SECONDS
  }

  /** While the poll of d is open, its registration stands, and every wake of a session inserted since left its token. */
  ghost predicate NothingLost(m: Machine, d: string) {
    d in m.polls ==>
      var p := m.polls[d];
      && d in m.board.waiters && m.board.waiters[d] == Waiter(p.channel, p.since)
      && forall id :: id in m.sessions && m.sessions[id].daemon == d && id !in p.before && m.sessions[id].woken ==>
           Token(m.board, p.channel)
  }

  lemma PruneSparesTimely(b: Board, now: int, pruneAbove: nat, d: string)
    requires d in b.waiters && now <= b.waiters[d].at + QUIET_SECONDS
    ensures d in Pruned(b, now, pruneAbove).waiters && Pruned(b, now, pruneAbove).waiters[d] == b.waiters[d]
    ensures Pruned(b, now, pruneAbove).channels == b.channels
  {
  }

  /** Channels are never taken away and never change hands. */
  ghost predicate Grows(b: Board, after: Board) {
    && |b.channels| <= |after.channels|
    && forall c :: 0 <= c < |b.channels| ==> after.channels[c].owner == b.channels[c].owner
  }

  lemma RegisteredOk(b: Board, d: string, now: int)
    requires BoardOk(b)
    ensures BoardOk(Registered(b, d, now)) && Grows(b, Registered(b, d, now))
    ensures d in Registered(b, d, now).waiters
  {
  }

  lemma WokenOk(b: Board, d: string)
    requires BoardOk(b)
    ensures BoardOk(Woken(b, d)) && Grows(b, Woken(b, d))
  {
  }

  lemma ReleasedOk(b: Board, d: string, channel: nat, now: int, pruneAbove: nat)
    requires BoardOk(b)
    ensures BoardOk(Released(b, d, channel, now, pruneAbove)) && Grows(b, Released(b, d, channel, now, pruneAbove))
  {
  }

  lemma TakenOk(b: Board, channel: nat)
    requires BoardOk(b) && channel < |b.channels|
    ensures BoardOk(Taken(b, channel)) && Grows(b, Taken(b, channel))
  {
  }

  lemma StepKeepsBoard(m: Machine, e: Event, pruneAbove: nat)
    requires Shape(m) && Enabled(m, e)
    ensures BoardOk(Step(m, e, pruneAbove).board) && Grows(m.board, Step(m, e, pruneAbove).board)
  {
    match e
    case Register(d) => RegisteredOk(m.board, d, m.clock);
    case ParkTakes(d) =>
      var channel := m.polls[d].channel;
      TakenOk(m.board, channel);
      ReleasedOk(Taken(m.board, channel), d, channel, m.clock, pruneAbove);
    case ParkEnds(d) => ReleasedOk(m.board, d, m.polls[d].channel, m.clock, pruneAbove);
    case Wake(id) => WokenOk(m.board, m.sessions[id].daemon);
    case _ =>
  }

  lemma StepKeepsShape(m: Machine, e: Event, pruneAbove: nat)
    requires Shape(m) && Enabled(m, e)
    ensures Shape(Step(m, e, pruneAbove))
  {
    StepKeepsBoard(m, e, pruneAbove);
    var after := Step(m, e, pruneAbove);
    forall d | d in after.polls
      ensures Owns(after.board, d, after.polls[d].channel) && after.polls[d].since <= after.clock
    {
      if d in m.polls && after.polls[d].channel == m.polls[d].channel {
        assert Owns(m.board, d, m.polls[d].channel);
      }
    }
  }

  /** Another daemon's park, release and prune included, keeps the poll of d safe while that poll is timely. */
  lemma OtherParkLosesNothing(m: Machine, e: Event, pruneAbove: nat, d: string)
    requires Shape(m) && Enabled(m, e) && NothingLost(m, d) && Timely(m, d)
    requires (e.ParkTakes? || e.ParkEnds?) && e.d != d && d in m.polls
    ensures NothingLost(Step(m, e, pruneAbove), d)
  {
    hide Pruned, BoardOk;
    var channel := m.polls[e.d].channel;
    assert Owns(m.board, e.d, channel) && Owns(m.board, d, m.polls[d].channel);
    var b := if e.ParkTakes? then Taken(m.board, channel) else m.board;
    var dropped := Dropped(b, e.d, channel);
    assert d in dropped.waiters && dropped.waiters[d] == m.board.waiters[d];
    PruneSparesTimely(dropped, m.clock, pruneAbove, d);
  }

  /** One event of anyone keeps the poll of d safe, as long as that poll is timely. */
  lemma StepLosesNothing(m: Machine, e: Event, pruneAbove: nat, d: string)
    requires Shape(m) && Enabled(m, e) && NothingLost(m, d) && Timely(m, d)
    ensures NothingLost(Step(m, e, pruneAbove), d)
  {
    match e
    case ParkTakes(o) =>
      if d in m.polls && o != d {
        OtherParkLosesNothing(m, e, pruneAbove, d);
      }
    case ParkEnds(o) =>
      if d in m.polls && o != d {
        OtherParkLosesNothing(m, e, pruneAbove, d);
      }
    case Register(o) =>
      if o != d && d in m.polls {
        assert Owns(m.board, d, m.polls[d].channel);
      }
    case _ =>
  }

  /** A run in which the poll of d is timely throughout. */
  ghost predicate Possible(m: Machine, es: seq<Event>, pruneAbove: nat, d: string)
    decreases |es|
  {
    && Timely(m, d)
    && (es != [] ==> Enabled(m, es[0]) && Possible(Step(m, es[0], pruneAbove), es[1..], pruneAbove, d))
  }

  ghost function Run(m: Machine, es: seq<Event>, pruneAbove: nat, d: string): (r: Machine)
    requires Possible(m, es, pruneAbove, d)
    decreases |es|
  {
    if es == [] then m else Run(Step(m, es[0], pruneAbove), es[1..], pruneAbove, d)
  }

  const START := Machine(Board(map[], []), map[], map[], 0)

  lemma {:induction false} RunLosesNothing(m: Machine, es: seq<Event>, pruneAbove: nat, d: string)
    requires Possible(m, es, pruneAbove, d) && Shape(m) && NothingLost(m, d)
    ensures Shape(Run(m, es, pruneAbove, d)) && NothingLost(Run(m, es, pruneAbove, d), d)
    decreases |es|
  {
    if es != [] {
      StepKeepsShape(m, es[0], pruneAbove);
      StepLosesNothing(m, es[0], pruneAbove, d);
      RunLosesNothing(Step(m, es[0], pruneAbove), es[1..], pruneAbove, d);
    }
  }

  /**
   No lost wake-up, under any interleaving with creators and with the polls of
   other daemons: of a session inserted for d since its poll registered, either
   the creator has yet to wake the poll, or a token waits, whether or not the list
   showed the session. Then true is the park's only answer exactly when its time is
   not up yet; once it is, the park may answer either way.
   */
  lemma NoLostWakeUp(es: seq<Event>, pruneAbove: nat, d: string, id: string)
    requires Possible(START, es, pruneAbove, d)
    requires var m := Run(START, es, pruneAbove, d);
             d in m.polls && m.polls[d].seen.Some? && id in SessionsOf(m, d) && id !in m.polls[d].before
    ensures var m := Run(START, es, pruneAbove, d);
            && (!m.sessions[id].woken || Enabled(m, ParkTakes(d)))
            && (m.sessions[id].woken ==> (Enabled(m, ParkEnds(d)) <==> m.polls[d].due))
  {
    RunLosesNothing(START, es, pruneAbove, d);
  }

  /** The list misses a waiting session only when it is full, and then only for sessions at least as old. */
  lemma ListShowsTheOldest(m: Machine, d: string, ids: seq<string>, id: string)
    requires Enabled(m, List(d, ids)) && id in WaitingOf(m, d)
    ensures id in ids || (|ids| == LIST_LIMIT && forall other :: other in ids ==> CreatedOf(m)[other] <= CreatedOf(m)[id])
  {
    if |ids| < LIST_LIMIT {
      OldestTakesAll(CreatedOf(m), WaitingOf(m, d), LIST_LIMIT, ids);
    }
  }

  /** A wake that lands while the poll is open always leaves a token for its park. */
  lemma WakeReachesOpenPoll(es: seq<Event>, pruneAbove: nat, d: string, id: string)
    requires Possible(START, es, pruneAbove, d)
    requires var m := Run(START, es, pruneAbove, d);
             d in m.polls && id in SessionsOf(m, d) && !m.sessions[id].woken
    ensures var m := Run(START, es, pruneAbove, d);
            Token(Step(m, Wake(id), pruneAbove).board, m.polls[d].channel)
  {
    RunLosesNothing(START, es, pruneAbove, d);
  }

  /**
   The hour matters: once a poll has been open for longer, the release of another
   daemon's poll may prune its registration, and then a wake leaves no token.
   */
  lemma PrunedPollMissesItsWake(m: Machine, d: string, other: string, id: string, pruneAbove: nat)
    requires Shape(m) && NothingLost(m, d) && d in m.polls && other in m.polls && other != d && Enabled(m, ParkEnds(other))
    requires id in SessionsOf(m, d) && !m.sessions[id].woken
    requires !Token(m.board, m.polls[d].channel)
    requires |m.board.waiters| > pruneAbove + 1
    ensures var after := Step(Step(m, ParkEnds(other), pruneAbove), Wake(id), pruneAbove);
            Token(after.board, m.polls[d].channel) <==> Timely(m, d)
  {
    hide BoardOk;
    var b := Dropped(m.board, other, m.polls[other].channel);
    assert |b.waiters| >= |m.board.waiters| - 1 by {
      if b.waiters != m.board.waiters {
        assert m.board.waiters.Keys == b.waiters.Keys + {other};
      }
    }
  }

  /** The park may still time out in the gap between a creator's insert and its wake; the poll's second list covers that. */
  lemma TimerMayBeatTheWake(pruneAbove: nat)
    ensures var m1 := Step(START, Register("d"), pruneAbove);
            Enabled(m1, List("d", [])) &&
            var m2 := Step(m1, List("d", []), pruneAbove);
            var m3 := Step(Step(m2, TimeIsUp("d"), pruneAbove), Insert("s", "d"), pruneAbove);
            && !Enabled(m3, ParkTakes("d")) && Enabled(m3, ParkEnds("d"))
            && m3.polls["d"].seen == Some([]) && "s" in WaitingOf(Step(m3, ParkEnds("d"), pruneAbove), "d")
  {
  }
}
