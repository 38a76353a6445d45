/**
 The life of a cloud-relayed terminal session: created pending with a one-time
 ticket, offered to the daemon's poll under a lease, active once the daemon's
 agent attaches, and closed or failed in the end. Times are in seconds.
 */
module CloudTerminal {
  import opened Wrappers
  import opened Sequences
  import opened Selection

  const TICKET_TTL := 60
  const LEASE := 90
  const PENDING_EXPIRY := 180
  const ACTIVE_MAX_AGE := 24 * 3600
  const RETENTION := 7 * 24 * 3600
  const PENDING_LIMIT: nat := 8
  const DEFAULT_SESSIONS := 4
  const ERROR_LIMIT := 512

  datatype Status = Pending | Offered | Active | Closed | Failed

  /** A ticket is known by its hash, which is empty (None) once it was used. */
  datatype Session = Session(
    daemon: string, workspace: string, ticketHash: Option<string>, status: Status,
    leasedAt: Option<int>, startedAt: Option<int>, endedAt: Option<int>,
    exitCode: int, error: string, bytesIn: int, bytesOut: int, createdAt: int, updatedAt: int)

  type Table = map<string, Session>

  predicate IsLive(s: Session) {
    s.status == Pending || s.status == Offered || s.status == Active
  }

  function LiveIn(t: Table, workspace: string): set<string> {
    set id | id in t && t[id].workspace == workspace && IsLive(t[id])
  }

  function Cap(quota: int): int {
    if quota <= 0 then DEFAULT_SESSIONS else quota
  }

  // --------------------------------------------------- each call on the table

  function NewSession(daemon: string, workspace: string, ticket: string, now: int): Session {
    Session(daemon, workspace, Some(ticket), Pending, None, None, None, 0, "", 0, 0, now, now)
  }

  predicate MayCreate(t: Table, workspace: string, quota: int) {
    |LiveIn(t, workspace)| < Cap(quota)
  }

  /** What a handshake checks on the row it read. */
  predicate TicketMatches(s: Session, ticket: string, now: int) {
    IsLive(s) && now <= s.createdAt + TICKET_TTL && s.ticketHash == Some(ticket)
  }

  /** The compare-and-swap of a handshake: consumes the hash if it is still the one that was read. */
  predicate SwapHits(t: Table, id: string, seen: string) {
    id in t && t[id].ticketHash == Some(seen)
  }

  function Swapped(t: Table, id: string, seen: string, now: int): Table {
    if SwapHits(t, id, seen) then t[id := t[id].(ticketHash := None, updatedAt := now)] else t
  }

  predicate LeaseExpired(s: Session, daemon: string, now: int) {
    s.daemon == daemon && s.status == Offered && s.leasedAt.Some? && s.leasedAt.value < now - LEASE
  }

  function Reclaim(t: Table, daemon: string, now: int): Table {
    map id | id in t ::
      if LeaseExpired(t[id], daemon, now)
      then t[id].(status := Pending, leasedAt := None, updatedAt := now) else t[id]
  }

  function Waiting(t: Table, daemon: string, now: int): set<string> {
    set id | id in t && t[id].daemon == daemon && t[id].status == Pending && t[id].createdAt > now - PENDING_EXPIRY
  }

  function Created(t: Table): map<string, int> {
    map id | id in t :: t[id].createdAt
  }

  function Offer(t: Table, daemon: string, ids: seq<string>, now: int): Table {
    map id | id in t ::
      if t[id].daemon == daemon && id in ids && t[id].status == Pending
      then t[id].(status := Offered, leasedAt := Some(now), updatedAt := now) else t[id]
  }

  /** The table after a pickup that leased these sessions. */
  function PickedUp(t: Table, daemon: string, ids: seq<string>, now: int): Table {
    Offer(Reclaim(t, daemon, now), daemon, ids, now)
  }

  ghost predicate PicksUp(t: Table, daemon: string, ids: seq<string>, now: int) {
    Oldest(Created(t), Waiting(Reclaim(t, daemon, now), daemon, now), PENDING_LIMIT, ids)
  }

  predicate MayAttach(t: Table, daemon: string, id: string) {
    id in t && t[id].daemon == daemon && IsLive(t[id])
  }

  function Attached(t: Table, daemon: string, id: string, now: int): Table {
    if MayAttach(t, daemon, id) && (t[id].status != Active || t[id].startedAt.None?)
    then t[id := t[id].(status := Active, startedAt := Some(now), updatedAt := now)] else t
  }

  function Finished(t: Table, id: string, status: Status, exitCode: int, failure: string, bytesIn: int, bytesOut: int, now: int): Table {
    var text := if |failure| > ERROR_LIMIT then failure[..ERROR_LIMIT] else failure;
    if (status == Closed || status == Failed) && id in t && IsLive(t[id])
    then t[id := t[id].(status := status, exitCode := exitCode, error := text,
                        bytesIn := bytesIn, bytesOut := bytesOut, endedAt := Some(now), updatedAt := now)]
    else t
  }

  function Revoked(t: Table, daemon: string, id: string, now: int): Table {
    if id in t && t[id].daemon == daemon && IsLive(t[id])
    then t[id := t[id].(status := Closed, endedAt := Some(now), updatedAt := now)] else t
  }

  function Since(s: Session): int {
    if s.startedAt.Some? then s.startedAt.value else s.createdAt
  }

  predicate NeverPickedUp(s: Session, now: int) {
    (s.status == Pending || s.status == Offered) && s.createdAt < now - PENDING_EXPIRY
  }

  predicate Leaked(s: Session, now: int) {
    s.status == Active && Since(s) < now - ACTIVE_MAX_AGE
  }

  function FailIdle(s: Session, now: int): Session {
    if NeverPickedUp(s, now) then s.(status := Failed, error := "not picked up", endedAt := Some(now), updatedAt := now) else s
  }

  function FailLeaked(s: Session, now: int): Session {
    if Leaked(s, now) then s.(status := Failed, error := "stale session", endedAt := Some(now), updatedAt := now) else s
  }

  /** What a sweep makes of a row before it prunes: the two failing statements, one after the other. */
  function SweptRow(s: Session, now: int): Session {
    FailLeaked(FailIdle(s, now), now)
  }

  predicate Pruned(s: Session, now: int) {
    !IsLive(s) && s.updatedAt < now - RETENTION
  }

  function Swept(t: Table, now: int): Table {
    map id | id in t && !Pruned(SweptRow(t[id], now), now) :: SweptRow(t[id], now)
  }

  datatype CreateError = Forbidden | Invalid | RateLimited

  // ------------------------------- rows told without the definitions above

  /** The row waits for its daemon: pending, or offered more than 90 seconds ago, and not older than three minutes. */
  predicate Awaits(s: Session, daemon: string, now: int) {
    s.daemon == daemon && now < s.createdAt + 180 && (s.status == Pending || OfferLapsed(s, now))
  }

  predicate OfferLapsed(s: Session, now: int) {
    s.status == Offered && s.leasedAt.Some? && s.leasedAt.value + 90 < now
  }

  /** What a pickup does, row by row. */
  ghost predicate PickedUpRows(t: Table, after: Table, daemon: string, ids: seq<string>, now: int) {
    && after.Keys == t.Keys
    && (forall id :: id in ids ==>
          && id in t && Awaits(t[id], daemon, now)
          && after[id] == t[id].(status := Offered, leasedAt := Some(now), updatedAt := now))
    && (forall id :: id in t && id !in ids ==>
          after[id] == if t[id].daemon == daemon && OfferLapsed(t[id], now)
                       then t[id].(status := Pending, leasedAt := None, updatedAt := now) else t[id])
    && (forall id :: id in t && id !in ids && Awaits(t[id], daemon, now) ==>
          |ids| == 8 && forall other :: other in ids && other in t ==> t[other].createdAt <= t[id].createdAt)
  }

  lemma PickUpIs(t: Table, daemon: string, ids: seq<string>, now: int)
    requires PicksUp(t, daemon, ids, now)
    ensures PickedUpRows(t, PickedUp(t, daemon, ids, now), daemon, ids, now)
  {
    var waiting := Waiting(Reclaim(t, daemon, now), daemon, now);
    assert forall id :: id in waiting <==> id in t && Awaits(t[id], daemon, now);
    if |ids| < 8 {
      OldestTakesAll(Created(t), waiting, PENDING_LIMIT, ids);
    }
  }

  /** What a sweep does to one row: it goes a week after its end, and fails when nobody picked it up in time or it ran for a day. */
  ghost predicate SweptTo(s: Session, after: Option<Session>, now: int) {
    if !IsLive(s) && s.updatedAt + 604800 < now then after.None?
    else if (s.status == Pending || s.status == Offered) && s.createdAt + 180 < now
    then after == Some(s.(status := Failed, error := "not picked up", endedAt := Some(now), updatedAt := now))
    else if s.status == Active && (if s.startedAt.Some? then s.startedAt.value else s.createdAt) + 86400 < now
    then after == Some(s.(status := Failed, error := "stale session", endedAt := Some(now), updatedAt := now))
    else after == Some(s)
  }

  lemma SweepIs(t: Table, now: int, id: string)
    requires id in t
    ensures SweptTo(t[id], if id in Swept(t, now) then Some(Swept(t, now)[id]) else None, now)
  {
  }

  class TerminalTable {
    var sessions: Table

    constructor ()
      ensures sessions == map[]
    {
      sessions := map[];
    }

    /** Ids are random, so a new one names no session yet. */
    method CreateTerminalSession(id: string, daemon: string, workspace: string, ticket: string, relayEnabled: bool,
                                 cols: int, rows: int, quota: int, now: int)
      returns (r: Result<int, CreateError>)
      requires id !in sessions
      modifies this
      ensures r.Err? ==> sessions == old(sessions)
      ensures r.Ok? ==> sessions == old(sessions)[id := NewSession(daemon, workspace, ticket, now)]
      ensures r.Ok? ==> r.value == now + TICKET_TTL
      ensures r.Ok? <==> relayEnabled && 0 <= cols <= 1000 && 0 <= rows <= 500 && MayCreate(old(sessions), workspace, quota)
      ensures r == Err(RateLimited) ==> !MayCreate(old(sessions), workspace, quota)
      ensures r.Ok? ==>
                && r.value == now + 60
                && sessions[id] == Session(daemon, workspace, Some(ticket), Pending, None, None, None, 0, "", 0, 0, now, now)
                && |set x | x in old(sessions) && old(sessions)[x].workspace == workspace
                            && old(sessions)[x].status != Closed && old(sessions)[x].status != Failed|
                   < if quota > 0 then quota else 4
    {
      if !relayEnabled {
        return Err(Forbidden);
      }
      if cols < 0 || cols > 1000 || rows < 0 || rows > 500 {
        return Err(Invalid);
      }
      var limit := quota;
      if limit <= 0 {
        limit := DEFAULT_SESSIONS;
      }
      if |LiveIn(sessions, workspace)| >= limit {
        return Err(RateLimited);
      }
      assert LiveIn(sessions, workspace) == set x | x in sessions && sessions[x].workspace == workspace
                                                    && sessions[x].status != Closed && sessions[x].status != Failed;
      sessions := sessions[id := NewSession(daemon, workspace, ticket, now)];
      return Ok(now + TICKET_TTL);
    }

    /** A handshake that no other call interleaves with. */
    method AuthenticateTerminalTicket(daemon: string, id: string, ticket: string, now: int) returns (ok: bool)
      modifies this
      ensures ok <==> id in old(sessions) && old(sessions)[id].daemon == daemon && ticket != ""
                      && TicketMatches(old(sessions)[id], ticket, now)
      ensures sessions == if ok then Swapped(old(sessions), id, ticket, now) else old(sessions)
      ensures ok ==> !SwapHits(sessions, id, ticket)
      ensures ok <==> && ticket != "" && id in old(sessions) && old(sessions)[id].daemon == daemon
                      && old(sessions)[id].status != Closed && old(sessions)[id].status != Failed
                      && old(sessions)[id].ticketHash == Some(ticket) && now <= old(sessions)[id].createdAt + 60
      ensures ok ==> sessions == old(sessions)[id := old(sessions)[id].(ticketHash := None, updatedAt := now)]
    {
      if ticket == "" || id !in sessions || sessions[id].daemon != daemon {
        return false;
      }
      var row := sessions[id];
      if row.status != Pending && row.status != Offered && row.status != Active {
        return false;
      }
      if now > row.createdAt + TICKET_TTL {
        return false;
      }
      if row.ticketHash.None? || row.ticketHash.value != ticket {
        return false;
      }
      sessions := sessions[id := row.(ticketHash := None, updatedAt := now)];
      return true;
    }

    method ListPendingTerminalSessions(daemon: string, now: int) returns (ids: seq<string>)
      modifies this
      ensures PicksUp(old(sessions), daemon, ids, now)
      ensures sessions == PickedUp(old(sessions), daemon, ids, now)
      ensures PickedUpRows(old(sessions), sessions, daemon, ids, now)
    {
      ghost var before := sessions;
      sessions := Reclaim(sessions, daemon, now);
      assert Created(sessions) == Created(before);
      ids := PickOldest(Created(sessions), Waiting(sessions, daemon, now), PENDING_LIMIT);
      PickUpIs(before, daemon, ids, now);
      if |ids| == 0 {
        assert Offer(sessions, daemon, ids, now) == sessions;
        return;
      }
      sessions := Offer(sessions, daemon, ids, now);
    }

    method AttachTerminalAgent(daemon: string, id: string, now: int) returns (ok: bool)
      modifies this
      ensures ok <==> MayAttach(old(sessions), daemon, id)
      ensures sessions == Attached(old(sessions), daemon, id, now)
      ensures ok <==> && id in old(sessions) && old(sessions)[id].daemon == daemon
                      && old(sessions)[id].status != Closed && old(sessions)[id].status != Failed
      ensures ok && old(sessions)[id].status == Active && old(sessions)[id].startedAt.Some? ==> sessions == old(sessions)
      ensures ok && !(old(sessions)[id].status == Active && old(sessions)[id].startedAt.Some?) ==>
                sessions == old(sessions)[id := old(sessions)[id].(status := Active, startedAt := Some(now), updatedAt := now)]
    {
      if id !in sessions || sessions[id].daemon != daemon {
        return false;
      }
      var row := sessions[id];
      match row.status {
        case Closed => return false;
        case Failed => return false;
        case _ =>
      }
      if row.status != Active || row.startedAt.None? {
        sessions := sessions[id := row.(status := Active, startedAt := Some(now), updatedAt := now)];
      }
      return true;
    }

    method FinishTerminalSession(id: string, status: Status, exitCode: int, failure: string, bytesIn: int, bytesOut: int, now: int)
      returns (ok: bool)
      modifies this
      ensures ok <==> status == Closed || status == Failed
      ensures sessions == Finished(old(sessions), id, status, exitCode, failure, bytesIn, bytesOut, now)
      ensures ok && id in old(sessions) && old(sessions)[id].status != Closed && old(sessions)[id].status != Failed ==>
                && sessions.Keys == old(sessions).Keys
                && sessions[id].status == status && sessions[id].exitCode == exitCode
                && sessions[id].error <= failure && |sessions[id].error| == Min(|failure|, 512)
                && sessions[id].bytesIn == bytesIn && sessions[id].bytesOut == bytesOut
                && sessions[id].endedAt == Some(now) && sessions[id].updatedAt == now
      ensures forall x :: x in old(sessions) && (x != id || !ok || !IsLive(old(sessions)[x])) ==>
                x in sessions && sessions[x] == old(sessions)[x]
    {
      if status != Closed && status != Failed {
        return false;
      }
      var text := failure;
      if |text| > ERROR_LIMIT {
        text := text[..ERROR_LIMIT];
      }
      if id in sessions && IsLive(sessions[id]) {
        sessions := sessions[id := sessions[id].(status := status, exitCode := exitCode, error := text,
                                                 bytesIn := bytesIn, bytesOut := bytesOut,
                                                 endedAt := Some(now), updatedAt := now)];
      }
      return true;
    }

    method CloseTerminalSession(daemon: string, id: string, now: int) returns (found: bool)
      modifies this
      ensures found <==> id in old(sessions) && old(sessions)[id].daemon == daemon
      ensures sessions == Revoked(old(sessions), daemon, id, now)
      ensures found && old(sessions)[id].status != Closed && old(sessions)[id].status != Failed ==>
                sessions == old(sessions)[id := old(sessions)[id].(status := Closed, endedAt := Some(now), updatedAt := now)]
    {
      if id !in sessions || sessions[id].daemon != daemon {
        return false;
      }
      if IsLive(sessions[id]) {
        sessions := sessions[id := sessions[id].(status := Closed, endedAt := Some(now), updatedAt := now)];
      }
      return true;
    }

    /** Three statements: fail what was never picked up, fail what leaked, prune what ended long ago. */
    method SweepTerminalSessions(now: int)
      modifies this
      ensures sessions == Swept(old(sessions), now)
      ensures sessions.Keys <= old(sessions).Keys
      ensures forall id :: id in old(sessions) ==>
                SweptTo(old(sessions)[id], if id in sessions then Some(sessions[id]) else None, now)
      ensures forall id :: id in sessions && IsLive(sessions[id]) ==>
                !NeverPickedUp(sessions[id], now) && !Leaked(sessions[id], now)
    {
      hide SweptTo;
      ghost var before := sessions;
      sessions := map id | id in sessions :: FailIdle(sessions[id], now);
      sessions := map id | id in sessions :: FailLeaked(sessions[id], now);
      assert forall id :: id in before ==> id in sessions && sessions[id] == SweptRow(before[id], now);
      sessions := map id | id in sessions && !Pruned(sessions[id], now) :: sessions[id];
      forall id | id in sessions
        ensures IsLive(sessions[id]) ==> !NeverPickedUp(sessions[id], now) && !Leaked(sessions[id], now)
      {
        SweptRowIsYoung(before[id], now);
      }
      forall id | id in before {
        SweepIs(before, now, id);
      }
    }
  }

  lemma SweptRowIsYoung(s: Session, now: int)
    ensures var t := SweptRow(s, now); IsLive(t) ==> !NeverPickedUp(t, now) && !Leaked(t, now)
  {
  }

  // -------------------------------------------------------- runs of the machine

  /** A handshake between its read and its compare-and-swap. */
  datatype Handshake = Handshake(session: string, seen: string)

  /**
   Service calls are atomic, except that a handshake's read and its swap may have
   any calls in between. used holds every id ever given out; accepted counts the
   handshakes of a session that succeeded.
   */
  datatype Machine = Machine(
    table: Table, used: set<string>, open: map<nat, Handshake>, accepted: map<string, nat>)

  datatype Event =
    | Create(id: string, daemon: string, workspace: string, ticket: string)
    | Read(handshake: nat, daemon: string, id: string, ticket: string)
    | Swap(handshake: nat)
    | PickUp(daemon: string, ids: seq<string>)
    | Attach(daemon: string, id: string)
    | Finish(id: string, status: Status, exitCode: int, failure: string, bytesIn: int, bytesOut: int)
    | Revoke(daemon: string, id: string)
    | Sweep

  datatype Timed = Timed(event: Event, now: int)

  /** The cap of a workspace is fixed over the run. */
  function Step(m: Machine, quota: int, e: Timed): Machine {
    var t := m.table;
    match e.event
    case Create(id, daemon, workspace, ticket) =>
      if id !in m.used && MayCreate(t, workspace, quota)
      then m.(table := t[id := NewSession(daemon, workspace, ticket, e.now)], used := m.used + {id}) else m
    case Read(h, daemon, id, ticket) =>
      if h !in m.open && ticket != "" && id in t && t[id].daemon == daemon && TicketMatches(t[id], ticket, e.now)
      then m.(open := m.open[h := Handshake(id, ticket)]) else m
    case Swap(h) =>
      if h !in m.open then m
      else
        var id, seen := m.open[h].session, m.open[h].seen;
        var rest := m.(open := m.open - {h});
        if SwapHits(t, id, seen)
        then rest.(table := Swapped(t, id, seen, e.now), accepted := m.accepted[id := Accepted(m, id) + 1])
        else rest
    case PickUp(daemon, ids) => m.(table := PickedUp(t, daemon, ids, e.now))
    case Attach(daemon, id) => m.(table := Attached(t, daemon, id, e.now))
    case Finish(id, status, exitCode, failure, bytesIn, bytesOut) =>
      m.(table := Finished(t, id, status, exitCode, failure, bytesIn, bytesOut, e.now))
    case Revoke(daemon, id) => m.(table := Revoked(t, daemon, id, e.now))
    case Sweep => m.(table := Swept(t, e.now))
  }

  function Accepted(m: Machine, id: string): nat {
    if id in m.accepted then m.accepted[id] else 0
  }

  function Run(m: Machine, quota: int, es: seq<Timed>): Machine
    decreases |es|
  {
    if es == [] then m else Run(Step(m, quota, es[0]), quota, es[1..])
  }

  const START := Machine(map[], {}, map[], map[])

  /** What a row says of its start and its end, whatever happened to it. */
  ghost predicate RowInv(s: Session) {
    && (s.status == Active ==> s.startedAt.Some?)
    && (s.status == Pending || s.status == Offered ==> s.startedAt.None? && s.endedAt.None?)
    && (!IsLive(s) ==> s.endedAt.Some?)
  }

  /** A row in order: besides, it has an end time only when it has ended. */
  ghost predicate SessionInv(s: Session) {
    RowInv(s) && (s.endedAt.Some? ==> !IsLive(s))
  }

  /** Every row is of an id given out, and no session accepted two handshakes, or one with its ticket still there. */
  ghost predicate Core(m: Machine) {
    && (forall id :: id in m.table ==> id in m.used && RowInv(m.table[id]))
    && (forall id :: Accepted(m, id) <= 1)
    && (forall id :: id in m.table && m.table[id].ticketHash.Some? ==> Accepted(m, id) == 0)
    && (forall id :: Accepted(m, id) > 0 ==> id in m.used)
  }

  ghost predicate Inv(m: Machine, quota: int) {
    && Core(m)
    && (forall id :: id in m.table ==> SessionInv(m.table[id]))
    && (forall workspace :: |LiveIn(m.table, workspace)| <= Cap(quota))
  }

  /** Where a row may go in one call: back and forth before it is active, then only forward. */
  ghost predicate Moves(a: Session, b: Session) {
    && (a.status == Active ==> b.status == Active || !IsLive(b))
    && (!IsLive(a) ==> b == a.(ticketHash := b.ticketHash, updatedAt := b.updatedAt))
    && (a.startedAt.Some? ==> b.startedAt == a.startedAt)
    && (a.ticketHash.None? ==> b.ticketHash.None?)
    && b.daemon == a.daemon && b.workspace == a.workspace && b.createdAt == a.createdAt
  }

  lemma LiveShrinks(before: Table, after: Table, workspace: string)
    requires forall id :: id in after && IsLive(after[id]) ==>
               id in before && IsLive(before[id]) && after[id].workspace == before[id].workspace
    ensures |LiveIn(after, workspace)| <= |LiveIn(before, workspace)|
  {
    SubsetIsSmaller(LiveIn(after, workspace), LiveIn(before, workspace));
  }

  /** One call on one row: it moves forward, stays consistent, and starts only by becoming active. */
  ghost predicate Kept(a: Session, b: Session) {
    && Moves(a, b) && RowInv(b) && (SessionInv(a) ==> SessionInv(b))
    && (a.startedAt.None? && b.startedAt.Some? ==> b.status == Active)
    && (IsLive(b) ==> IsLive(a) && b.endedAt == a.endedAt)
  }

  lemma PickUpKeeps(t: Table, daemon: string, ids: seq<string>, now: int, id: string)
    requires id in t && RowInv(t[id])
    ensures id in PickedUp(t, daemon, ids, now) && Kept(t[id], PickedUp(t, daemon, ids, now)[id])
  {
  }

  lemma SweepKeeps(t: Table, now: int, id: string)
    requires id in t && RowInv(t[id])
    ensures id in Swept(t, now) <==> !Pruned(SweptRow(t[id], now), now)
    ensures id in Swept(t, now) ==> Kept(t[id], Swept(t, now)[id])
  {
  }

  lemma AttachKeeps(t: Table, daemon: string, id: string, now: int, other: string)
    requires other in t && RowInv(t[other])
    ensures other in Attached(t, daemon, id, now) && Kept(t[other], Attached(t, daemon, id, now)[other])
  {
  }

  lemma FinishKeeps(t: Table, e: Event, now: int, other: string)
    requires other in t && RowInv(t[other]) && e.Finish?
    ensures var after := Finished(t, e.id, e.status, e.exitCode, e.failure, e.bytesIn, e.bytesOut, now);
            other in after && Kept(t[other], after[other])
  {
  }

  lemma RevokeKeeps(t: Table, daemon: string, id: string, now: int, other: string)
    requires other in t && RowInv(t[other])
    ensures other in Revoked(t, daemon, id, now) && Kept(t[other], Revoked(t, daemon, id, now)[other])
  {
  }

  lemma SwapKeeps(t: Table, id: string, seen: string, now: int, other: string)
    requires other in t && RowInv(t[other])
    ensures other in Swapped(t, id, seen, now) && Kept(t[other], Swapped(t, id, seen, now)[other])
  {
  }

  lemma RestKeeps(s: Session)
    requires RowInv(s)
    ensures Kept(s, s)
  {
  }

  /** Every call keeps every row moving forward; only a sweep removes rows, and only ended ones. */
  lemma StepMoves(m: Machine, quota: int, e: Timed, id: string)
    requires Core(m) && id in m.table
    ensures var after := Step(m, quota, e).table;
            if id in after then Kept(m.table[id], after[id])
            else e.event.Sweep? && Pruned(SweptRow(m.table[id], e.now), e.now)
    ensures Step(m, quota, e).used >= m.used
  {
    hide Kept, RowInv, PickedUp, Attached, Finished, Revoked, Swept, Swapped;
    RestKeeps(m.table[id]);
    match e.event
    case Swap(h) =>
      if h in m.open {
        SwapKeeps(m.table, m.open[h].session, m.open[h].seen, e.now, id);
      }
    case PickUp(daemon, ids) => PickUpKeeps(m.table, daemon, ids, e.now, id);
    case Sweep => SweepKeeps(m.table, e.now, id);
    case Attach(daemon, other) => AttachKeeps(m.table, daemon, other, e.now, id);
    case Finish(_, _, _, _, _, _) => FinishKeeps(m.table, e.event, e.now, id);
    case Revoke(daemon, other) => RevokeKeeps(m.table, daemon, other, e.now, id);
    case _ =>
  }

  /** Nothing but a create brings a row into being, and it does so pending. */
  lemma StepCreates(m: Machine, quota: int, e: Timed, id: string)
    requires Core(m) && id !in m.table && id in Step(m, quota, e).table
    ensures e.event.Create? && e.event.id == id && id !in m.used
    ensures Step(m, quota, e).table[id] == NewSession(e.event.daemon, e.event.workspace, e.event.ticket, e.now)
  {
  }

  lemma StepKeepsRow(m: Machine, quota: int, e: Timed, id: string)
    requires Inv(m, quota) && id in Step(m, quota, e).table
    ensures SessionInv(Step(m, quota, e).table[id])
  {
    if id in m.table {
      StepMoves(m, quota, e, id);
    } else {
      StepCreates(m, quota, e, id);
    }
  }

  lemma StepKeepsCap(m: Machine, quota: int, e: Timed, workspace: string)
    requires Inv(m, quota)
    ensures |LiveIn(Step(m, quota, e).table, workspace)| <= Cap(quota)
  {
    if e.event.Create? {
      CreateKeepsCap(m, quota, e, workspace);
    } else {
      var after := Step(m, quota, e).table;
      forall id | id in after && IsLive(after[id])
        ensures id in m.table && IsLive(m.table[id]) && after[id].workspace == m.table[id].workspace
      {
        if id in m.table {
          StepMoves(m, quota, e, id);
        } else {
          StepCreates(m, quota, e, id);
        }
      }
      LiveShrinks(m.table, after, workspace);
    }
  }

  lemma CreateKeepsCap(m: Machine, quota: int, e: Timed, workspace: string)
    requires Inv(m, quota) && e.event.Create?
    ensures |LiveIn(Step(m, quota, e).table, workspace)| <= Cap(quota)
  {
    hide SessionInv, Accepted, LiveIn;
    var t, after := m.table, Step(m, quota, e).table;
    if after != t {
      assert e.event.id !in t;
      OneMoreLive(t, e.event.id, NewSession(e.event.daemon, e.event.workspace, e.event.ticket, e.now), workspace);
    }
  }

  lemma OneMoreLive(t: Table, id: string, s: Session, workspace: string)
    requires id !in t && IsLive(s)
    ensures |LiveIn(t[id := s], workspace)| == |LiveIn(t, workspace)| + if s.workspace == workspace then 1 else 0
  {
    if s.workspace == workspace {
      assert LiveIn(t[id := s], workspace) == LiveIn(t, workspace) + {id};
    } else {
      assert LiveIn(t[id := s], workspace) == LiveIn(t, workspace);
    }
  }

  lemma SwapKeepsTickets(m: Machine, quota: int, e: Timed, id: string)
    requires Core(m) && e.event.Swap?
    ensures var after := Step(m, quota, e);
            && Accepted(after, id) <= 1
            && (id in after.table && after.table[id].ticketHash.Some? ==> Accepted(after, id) == 0)
            && (Accepted(after, id) > 0 ==> id in after.used)
  {
    var after := Step(m, quota, e);
    if e.event.handshake in m.open {
      var swapped, seen := m.open[e.event.handshake].session, m.open[e.event.handshake].seen;
      if SwapHits(m.table, swapped, seen) && swapped == id {
        assert Accepted(m, swapped) == 0 && Accepted(after, swapped) == 1;
        assert after.table[swapped].ticketHash == None;
      } else {
        assert Accepted(after, id) == Accepted(m, id);
      }
    }
  }

  lemma StepKeepsTickets(m: Machine, quota: int, e: Timed, id: string)
    requires Core(m)
    ensures var after := Step(m, quota, e);
            && Accepted(after, id) <= 1
            && (id in after.table && after.table[id].ticketHash.Some? ==> Accepted(after, id) == 0)
            && (Accepted(after, id) > 0 ==> id in after.used)
  {
    var after := Step(m, quota, e);
    if e.event.Swap? {
      SwapKeepsTickets(m, quota, e, id);
    } else {
      assert after.accepted == m.accepted && after.used >= m.used;
      assert Accepted(after, id) == Accepted(m, id) <= 1;
      if id in m.table && id in after.table {
        StepMoves(m, quota, e, id);
      } else if id in after.table {
        StepCreates(m, quota, e, id);
      }
    }
  }

  lemma StepKeepsCore(m: Machine, quota: int, e: Timed)
    requires Core(m)
    ensures Core(Step(m, quota, e))
  {
    forall id | id in Step(m, quota, e).table
      ensures id in Step(m, quota, e).used && RowInv(Step(m, quota, e).table[id])
    {
      if id in m.table {
        StepMoves(m, quota, e, id);
      } else {
        StepCreates(m, quota, e, id);
      }
    }
    forall id { StepKeepsTickets(m, quota, e, id); }
  }

  lemma StepKeepsInv(m: Machine, quota: int, e: Timed)
    requires Inv(m, quota)
    ensures Inv(Step(m, quota, e), quota)
  {
    StepKeepsCore(m, quota, e);
    forall id | id in Step(m, quota, e).table
      ensures SessionInv(Step(m, quota, e).table[id])
    {
      StepKeepsRow(m, quota, e, id);
    }
    forall workspace { StepKeepsCap(m, quota, e, workspace); }
  }

  lemma {:induction false} RunKeepsInv(m: Machine, quota: int, es: seq<Timed>)
    requires Inv(m, quota)
    ensures Inv(Run(m, quota, es), quota)
    decreases |es|
  {
    if es != [] {
      StepKeepsInv(m, quota, es[0]);
      RunKeepsInv(Step(m, quota, es[0]), quota, es[1..]);
    }
  }

  lemma StartInv(quota: int)
    ensures Inv(START, quota)
  {
    assert forall workspace :: LiveIn(map[], workspace) == {};
  }

  /**
   Over every run: at most one handshake of a session ever succeeds, live rows
   stay within the cap, an active row has its start time, and a row has an end
   time exactly when it has ended.
   */
  lemma EveryRun(quota: int, es: seq<Timed>, id: string, workspace: string)
    ensures var m := Run(START, quota, es);
            && Accepted(m, id) <= 1
            && |LiveIn(m.table, workspace)| <= Cap(quota)
            && (id in m.table ==> SessionInv(m.table[id]))
  {
    StartInv(quota);
    RunKeepsInv(START, quota, es);
  }

  /** id was pruned and can never come back. */
  ghost predicate Gone(m: Machine, id: string) {
    id in m.used && id !in m.table
  }

  /** Closed and failed absorb, and start times are stamped once, over whole runs and until the row is pruned. */
  lemma {:induction false} RowsOnlyMoveForward(m: Machine, quota: int, es: seq<Timed>, id: string)
    requires Inv(m, quota) && (id in m.table || Gone(m, id))
    ensures var after := Run(m, quota, es);
            && (Gone(m, id) ==> Gone(after, id))
            && (id in m.table ==> if id in after.table then Moves(m.table[id], after.table[id]) else Gone(after, id))
    decreases |es|
  {
    if es != [] {
      var next := Step(m, quota, es[0]);
      StepKeepsInv(m, quota, es[0]);
      if id in m.table {
        StepMoves(m, quota, es[0], id);
      } else if id in next.table {
        StepCreates(m, quota, es[0], id);
      }
      RowsOnlyMoveForward(next, quota, es[1..], id);
    }
  }

  /** A row of the end state that is pending or offered never was active: the two alternate only before that. */
  lemma NeverBackFromActive(m: Machine, quota: int, es: seq<Timed>, id: string)
    requires Inv(m, quota) && id in m.table && m.table[id].status == Active
    requires id in Run(m, quota, es).table
    ensures var s := Run(m, quota, es).table[id];
            s.status != Pending && s.status != Offered && s.startedAt == m.table[id].startedAt
  {
    RowsOnlyMoveForward(m, quota, es, id);
  }

  // --------------------------------------- between two statements of one call

  /** The call ends the session: its row is live before, and not after. */
  predicate Ends(m: Machine, e: Timed, id: string)
    requires id in m.table
  {
    match e.event
    case Finish(i, status, _, _, _, _) => i == id && (status == Closed || status == Failed)
    case Revoke(daemon, i) => i == id && m.table[id].daemon == daemon
    case Sweep => NeverPickedUp(m.table[id], e.now) || Leaked(m.table[id], e.now)
    case _ => false
  }

  /** One of the calls ends the session. */
  predicate EndedIn(m: Machine, quota: int, es: seq<Timed>, id: string)
    decreases |es|
  {
    es != [] && id in m.table && (Ends(m, es[0], id) || EndedIn(Step(m, quota, es[0]), quota, es[1..], id))
  }

  predicate LiveRow(m: Machine, id: string) {
    id in m.table && IsLive(m.table[id])
  }

  /** Finish, revoke and a sweep that fails it are what ends a live row, and nothing else does. */
  lemma EndsExactly(m: Machine, quota: int, e: Timed, id: string)
    requires Inv(m, quota) && LiveRow(m, id)
    ensures LiveRow(Step(m, quota, e), id) <==> !Ends(m, e, id)
  {
    var row := m.table[id];
    match e.event
    case Sweep => SweepEnds(m.table, e.now, id);
    case PickUp(daemon, ids) => assert PickedUp(m.table, daemon, ids, e.now)[id].status != Closed;
    case _ =>
  }

  lemma SweepEnds(t: Table, now: int, id: string)
    requires id in t && IsLive(t[id])
    ensures id in Swept(t, now) && (IsLive(Swept(t, now)[id]) <==> !NeverPickedUp(t[id], now) && !Leaked(t[id], now))
  {
    var swept := SweptRow(t[id], now);
    assert !Pruned(swept, now);
  }

  lemma {:induction false} EndedStaysEnded(m: Machine, quota: int, es: seq<Timed>, id: string)
    requires Inv(m, quota) && (id in m.table || Gone(m, id)) && !LiveRow(m, id)
    ensures !LiveRow(Run(m, quota, es), id)
  {
    RowsOnlyMoveForward(m, quota, es, id);
  }

  /** A session that is live at one point is still live later exactly when no call in between ended it. */
  lemma {:induction false} LiveUnlessEnded(m: Machine, quota: int, es: seq<Timed>, id: string)
    requires Inv(m, quota) && LiveRow(m, id)
    ensures LiveRow(Run(m, quota, es), id) <==> !EndedIn(m, quota, es, id)
    decreases |es|
  {
    if es != [] {
      var next := Step(m, quota, es[0]);
      StepKeepsInv(m, quota, es[0]);
      StepMoves(m, quota, es[0], id);
      EndsExactly(m, quota, es[0], id);
      if LiveRow(next, id) {
        LiveUnlessEnded(next, quota, es[1..], id);
      } else {
        EndedStaysEnded(next, quota, es[1..], id);
      }
    }
  }

  predicate NoSwapOf(h: nat, es: seq<Timed>) {
    forall i :: 0 <= i < |es| ==> es[i].event != Swap(h)
  }

  lemma {:induction false} HandshakeStaysOpen(m: Machine, quota: int, es: seq<Timed>, h: nat)
    requires h in m.open && NoSwapOf(h, es)
    ensures h in Run(m, quota, es).open && Run(m, quota, es).open[h] == m.open[h]
    decreases |es|
  {
    if es != [] {
      assert es[0].event != Swap(h);
      HandshakeStaysOpen(Step(m, quota, es[0]), quota, es[1..], h);
    }
  }

  /**
   The swap looks at neither status nor clock. A handshake that read its row and
   whose swap hits finds the session live exactly when no call ended it in
   between, and its ticket unexpired exactly when the swap comes within the
   ticket's lifetime.
   */
  lemma HitHonoursTheChecksExactly(m: Machine, quota: int, read: Timed, es: seq<Timed>, at: int)
    requires Inv(m, quota) && read.event.Read? && read.event.handshake !in m.open
    requires read.event.handshake in Step(m, quota, read).open
    requires NoSwapOf(read.event.handshake, es)
    requires SwapHits(Run(Step(m, quota, read), quota, es).table, read.event.id, read.event.ticket)
    ensures var begun, id, swap := Step(m, quota, read), read.event.id, Timed(Swap(read.event.handshake), at);
            var before := Run(begun, quota, es);
            && Accepted(Step(before, quota, swap), id) == Accepted(before, id) + 1
            && (TicketMatches(before.table[id], read.event.ticket, at)
                <==> !EndedIn(begun, quota, es, id) && at <= m.table[id].createdAt + TICKET_TTL)
  {
    var begun, id := Step(m, quota, read), read.event.id;
    StepKeepsInv(m, quota, read);
    HandshakeStaysOpen(begun, quota, es, read.event.handshake);
    LiveUnlessEnded(begun, quota, es, id);
    RowsOnlyMoveForward(begun, quota, es, id);
  }

  /** One such run: a revoke comes between the read and the swap, and the handshake is accepted all the same. */
  lemma HandshakeMayOutliveItsSession()
    ensures var es := [Timed(Create("s", "d", "w", "t"), 0), Timed(Read(0, "d", "s", "t"), 1),
                       Timed(Revoke("d", "s"), 2), Timed(Swap(0), 3)];
            var m := Run(START, 1, es);
            Accepted(m, "s") == 1 && m.table["s"].status == Closed
  {
    var e0, e1, e2, e3 := Timed(Create("s", "d", "w", "t"), 0), Timed(Read(0, "d", "s", "t"), 1), Timed(Revoke("d", "s"), 2), Timed(Swap(0), 3);
    assert LiveIn(map[], "w") == {};
    var m1 := Step(START, 1, e0);
    var m2 := Step(m1, 1, e1);
    var m3 := Step(m2, 1, e2);
    var m4 := Step(m3, 1, e3);
    assert [e0, e1, e2, e3][1..] == [e1, e2, e3] && [e1, e2, e3][1..] == [e2, e3] && [e2, e3][1..] == [e3] && [e3][1..] == [];
    assert Run(m3, 1, [e3]) == Run(m4, 1, []);
    assert Run(m2, 1, [e2, e3]) == Run(m3, 1, [e3]);
    assert Run(m1, 1, [e1, e2, e3]) == Run(m2, 1, [e2, e3]);
  }
}
