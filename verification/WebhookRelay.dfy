/**
 The webhook relay: the cloud queues requests for a daemon, leases them to it
 when it polls, and stores the result it reports. The daemon polls only when it
 is through with its last batch and works it off one request at a time. A poll or
 a report may fail, may be given up on and still arrive later, and the daemon may
 crash anywhere; a lease that ran out is handed out again. Other daemons poll and
 report at any time.
 */
module WebhookRelay {
  import opened Wrappers
  import opened Sequences
  import opened Text
  import opened Selection

  const LEASE_SECONDS := 120
  const PENDING_LIMIT := 50
  const BODY_LIMIT := 256 * 1024
  const ERROR_LIMIT := 512

  datatype Status = Pending | Leased | Done

  datatype RelayResult = RelayResult(code: int, body: string, error: string)

  datatype Row = Row(
    daemon: string, name: string, body: string, status: Status,
    leasedAt: Option<int>, createdAt: int, result: Option<RelayResult>)

  type Rows = map<string, Row>

  // -------------------------------------------------------- the cloud's calls

  predicate ValidRequest(name: string, body: string) {
    Trim(name) != "" && 0 < |body| <= BODY_LIMIT
  }

  function NewRow(daemon: string, name: string, body: string, now: int): Row {
    Row(daemon, Trim(name), body, Pending, None, now, None)
  }

  predicate LeaseExpired(row: Row, now: int) {
    row.status == Leased && row.leasedAt.Some? && row.leasedAt.value < now - LEASE_SECONDS
  }

  /** What a poll may hand out: pending requests, and leased ones whose lease ran out. */
  predicate Eligible(rows: Rows, daemon: string, now: int, id: string) {
    id in rows && rows[id].daemon == daemon && (rows[id].status == Pending || LeaseExpired(rows[id], now))
  }

  function EligibleIds(rows: Rows, daemon: string, now: int): set<string> {
    set id | id in rows && Eligible(rows, daemon, now, id)
  }

  function Reclaim(rows: Rows, daemon: string, now: int): Rows {
    map id | id in rows ::
      if rows[id].daemon == daemon && LeaseExpired(rows[id], now)
      then rows[id].(status := Pending, leasedAt := None) else rows[id]
  }

  function Lease(rows: Rows, daemon: string, ids: seq<string>, now: int): Rows {
    map id | id in rows ::
      if rows[id].daemon == daemon && id in ids
      then rows[id].(status := Leased, leasedAt := Some(now)) else rows[id]
  }

  /** The table after a poll handed out these requests. */
  function Polled(rows: Rows, daemon: string, ids: seq<string>, now: int): Rows {
    Lease(Reclaim(rows, daemon, now), daemon, ids, now)
  }

  function PendingIds(rows: Rows, daemon: string): set<string> {
    set id | id in rows && rows[id].daemon == daemon && rows[id].status == Pending
  }

  function Created(rows: Rows): map<string, int> {
    map id | id in rows :: rows[id].createdAt
  }

  /** ids are the oldest `limit` eligible requests, oldest first. */
  ghost predicate OldestEligible(rows: Rows, daemon: string, limit: nat, now: int, ids: seq<string>) {
    Oldest(Created(rows), EligibleIds(rows, daemon, now), limit, ids)
  }

  /** Once expired leases are reclaimed, what is pending is what was eligible. */
  lemma ReclaimedArePending(rows: Rows, daemon: string, now: int)
    ensures PendingIds(Reclaim(rows, daemon, now), daemon) == EligibleIds(rows, daemon, now)
    ensures Created(Reclaim(rows, daemon, now)) == Created(rows)
    ensures PendingIds(Reclaim(rows, daemon, now), daemon) <= Created(rows).Keys
  {
  }

  lemma LeaseNothing(rows: Rows, daemon: string, now: int)
    ensures Lease(rows, daemon, [], now) == rows
  {
  }

  predicate CanComplete(rows: Rows, daemon: string, id: string) {
    id in rows && rows[id].daemon == daemon && rows[id].status == Leased
  }

  function Clip(result: RelayResult): RelayResult {
    if |result.error| > ERROR_LIMIT then result.(error := result.error[..ERROR_LIMIT]) else result
  }

  /** The table after a result arrived: it is stored only on a leased request of that daemon. */
  function Completed(rows: Rows, daemon: string, id: string, result: RelayResult): Rows {
    if CanComplete(rows, daemon, id)
    then rows[id := rows[id].(status := Done, result := Some(Clip(result)))]
    else rows
  }

  /** A lease given more than two minutes ago. */
  predicate RanOut(row: Row, now: int) {
    row.status == Leased && row.leasedAt.Some? && row.leasedAt.value + 120 < now
  }

  /** What a poll does, row by row. */
  ghost predicate PolledRows(rows: Rows, daemon: string, limit: nat, now: int, ids: seq<string>) {
    var after := Polled(rows, daemon, ids, now);
    && after.Keys == rows.Keys
    && (forall id :: id in ids ==>
          && id in rows && rows[id].daemon == daemon && (rows[id].status == Pending || RanOut(rows[id], now))
          && after[id] == rows[id].(status := Leased, leasedAt := Some(now)))
    && (forall id :: id in rows && id !in ids ==>
          after[id] == if rows[id].daemon == daemon && RanOut(rows[id], now)
                       then rows[id].(status := Pending, leasedAt := None) else rows[id])
    && (forall id :: id in rows && id !in ids && rows[id].daemon == daemon && (rows[id].status == Pending || RanOut(rows[id], now)) ==>
          |ids| == limit && forall other :: other in ids && other in rows ==> rows[other].createdAt <= rows[id].createdAt)
  }

  lemma PolledRowIs(rows: Rows, daemon: string, limit: nat, now: int, ids: seq<string>)
    requires OldestEligible(rows, daemon, limit, now, ids)
    ensures PolledRows(rows, daemon, limit, now, ids)
  {
    var eligible := EligibleIds(rows, daemon, now);
    assert forall id :: id in ids ==> Eligible(rows, daemon, now, id);
    if |ids| < limit {
      OldestTakesAll(Created(rows), eligible, limit, ids);
    }
  }

  class WebhookTable {
    var rows: Rows

    constructor ()
      ensures rows == map[]
    {
      rows := map[];
    }

    method EnqueueWebhook(id: string, daemon: string, name: string, body: string, now: int) returns (ok: bool)
      requires id !in rows
      modifies this
      ensures ok == ValidRequest(name, body)
      ensures rows == if ok then old(rows)[id := NewRow(daemon, name, body, now)] else old(rows)
      // Told without the definitions above, here and below.
      ensures ok <==> Trim(name) != "" && body != "" && |body| <= 262144
      ensures ok ==> rows[id] == Row(daemon, Trim(name), body, Pending, None, now, None)
    {
      if Trim(name) == "" || |body| == 0 || |body| > BODY_LIMIT {
        return false;
      }
      rows := rows[id := NewRow(daemon, name, body, now)];
      return true;
    }

    method ListPendingWebhooks(daemon: string, limit: int, now: int) returns (ids: seq<string>)
      modifies this
      ensures OldestEligible(old(rows), daemon, if 0 < limit <= PENDING_LIMIT then limit else PENDING_LIMIT, now, ids)
      ensures rows == Polled(old(rows), daemon, ids, now)
      ensures rows.Keys == old(rows).Keys
      ensures forall id :: id in ids ==>
                && id in old(rows) && old(rows)[id].daemon == daemon
                && (old(rows)[id].status == Pending || RanOut(old(rows)[id], now))
                && rows[id] == old(rows)[id].(status := Leased, leasedAt := Some(now))
      ensures forall id :: id in old(rows) && id !in ids ==>
                rows[id] == if old(rows)[id].daemon == daemon && RanOut(old(rows)[id], now)
                            then old(rows)[id].(status := Pending, leasedAt := None) else old(rows)[id]
      ensures forall id :: id in old(rows) && id !in ids && old(rows)[id].daemon == daemon
                           && (old(rows)[id].status == Pending || RanOut(old(rows)[id], now)) ==>
                && |ids| == (if 0 < limit <= 50 then limit else 50)
                && forall other :: other in ids ==> old(rows)[other].createdAt <= old(rows)[id].createdAt
    {
      hide Oldest, Created, EligibleIds, PendingIds, Lease, Reclaim;
      var n := limit;
      if n <= 0 || n > PENDING_LIMIT {
        n := PENDING_LIMIT;
      }
      ReclaimedArePending(rows, daemon, now);
      rows := Reclaim(rows, daemon, now);
      var matching := PendingIds(rows, daemon);
      ids := PickOldest(Created(rows), matching, n);
      PolledRowIs(old(rows), daemon, n, now, ids);
      if |ids| == 0 {
        LeaseNothing(rows, daemon, now);
        return;
      }
      rows := Lease(rows, daemon, ids, now);
    }

    method CompleteWebhook(daemon: string, id: string, result: RelayResult) returns (ok: bool)
      modifies this
      ensures ok == CanComplete(old(rows), daemon, id)
      ensures rows == Completed(old(rows), daemon, id, result)
      ensures ok <==> id in old(rows) && old(rows)[id].daemon == daemon && old(rows)[id].status == Leased
      ensures ok ==>
                && rows[id].status == Done && rows[id].result.Some?
                && rows[id].result.value.code == result.code && rows[id].result.value.body == result.body
                && |rows[id].result.value.error| == Min(|result.error|, 512) && rows[id].result.value.error <= result.error
    {
      var stored := result;
      if |stored.error| > ERROR_LIMIT {
        stored := stored.(error := stored.error[..ERROR_LIMIT]);
      }
      if id !in rows || rows[id].daemon != daemon || rows[id].status != Leased {
        return false;
      }
      rows := rows[id := rows[id].(status := Done, result := Some(stored))];
      return true;
    }
  }

  // ------------------------------------------------- cloud and daemon together

  /** Where the daemon is with the first request of its batch. */
  datatype Phase =
    | Ready                                       // not touched yet
    | Working                                     // handed to the executor
    | Reporting(result: RelayResult, ran: bool)   // about to report; ran unless its body did not decode

  /** What happened to one request so far. */
  datatype Tally = Tally(
    attempts: nat,        // times it was handed to the executor
    undecodable: nat,     // times its body did not decode
    failedReports: nat,   // reports the daemon saw fail
    crashes: nat,         // crashes after it was handed over and before its report
    landed: nat,          // reports the daemon made that stored a result
    stores: nat)          // times a result was stored, by any report

  const NO_TALLY := Tally(0, 0, 0, 0, 0, 0)

  /** One daemon and the cloud's table, with the calls the daemon gave up on that are still on their way. */
  datatype Relay = Relay(
    rows: Rows,
    batch: seq<string>,
    phase: Phase,
    late: set<(string, RelayResult)>,     // reports on their way
    stray: nat,                           // polls on their way
    overtaken: set<string>,               // stored by a late report
    unleased: set<string>,                // in the batch, and taken back by a stray poll that did not hand it out
    tally: map<string, Tally>)

  datatype Event =
    | Enqueue(id: string, row: Row)
    | Poll(ids: seq<string>, limit: nat, now: int, delivered: bool)
    | GiveUpOnPoll
    | StrayPollLands(ids: seq<string>, limit: nat, now: int)
    | OtherPolls(other: string, ids: seq<string>, limit: nat, now: int)
    | OtherReports(other: string, id: string, result: RelayResult)
    | DecodeFails
    | Begin
    | Answer(result: RelayResult)
    | ReportLands
    | ReportFails(stillOnItsWay: bool)
    | LateLands(report: (string, RelayResult))
    | Crash(reportOnItsWay: bool)

  const UNDECODABLE := RelayResult(0, "", "invalid request body encoding")

  ghost predicate Enabled(s: Relay, daemon: string, e: Event) {
    match e
    case Enqueue(id, row) => id !in s.rows && row.status == Pending && row.result == None
    case Poll(ids, limit, now, _) => s.batch == [] && OldestEligible(s.rows, daemon, limit, now, ids)
    case GiveUpOnPoll => s.batch == []
    case StrayPollLands(ids, limit, now) => s.stray > 0 && OldestEligible(s.rows, daemon, limit, now, ids)
    case OtherPolls(other, ids, limit, now) => other != daemon && OldestEligible(s.rows, other, limit, now, ids)
    case OtherReports(other, _, _) => other != daemon
    case DecodeFails => s.batch != [] && s.phase == Ready
    case Begin => s.batch != [] && s.phase == Ready
    case Answer(_) => s.batch != [] && s.phase == Working
    case ReportLands => s.batch != [] && s.phase.Reporting?
    case ReportFails(_) => s.batch != [] && s.phase.Reporting?
    case LateLands(report) => report in s.late
    case Crash(_) => true
  }

  function TallyOf(s: Relay, id: string): Tally {
    if id in s.tally then s.tally[id] else NO_TALLY
  }

  predicate InReport(s: Relay) {
    s.batch != [] && s.phase.Reporting?
  }

  /** One event: a call on the cloud's table, or a move of the daemon, with the bookkeeping of it. */
  function Step(s: Relay, daemon: string, e: Event): Relay {
    match e
    case Enqueue(id, row) => s.(rows := s.rows[id := row])
    case Poll(ids, _, now, delivered) =>
      s.(rows := Polled(s.rows, daemon, ids, now), batch := if delivered then ids else [], phase := Ready, unleased := {})
    case GiveUpOnPoll => s.(stray := s.stray + 1)
    case StrayPollLands(ids, _, now) =>
      s.(rows := Polled(s.rows, daemon, ids, now), stray := if s.stray > 0 then s.stray - 1 else 0,
         unleased := set id | id in s.batch && id !in ids && (id in s.unleased || (id in s.rows && LeaseExpired(s.rows[id], now))))
    case OtherPolls(other, ids, _, now) => s.(rows := Polled(s.rows, other, ids, now))
    case OtherReports(other, id, result) => s.(rows := Completed(s.rows, other, id, result))
    case Crash(reportOnItsWay) =>
      var lost := s.(
        batch := [], phase := Ready,
        late := if reportOnItsWay && InReport(s) then s.late + {(s.batch[0], s.phase.result)} else s.late);
      if s.batch != [] && InHand(s, s.batch[0]) then
        var t := TallyOf(s, s.batch[0]);
        lost.(tally := s.tally[s.batch[0] := t.(crashes := t.crashes + 1)])
      else lost
    case LateLands(report) =>
      var arrived := s.(late := s.late - {report});
      if CanComplete(s.rows, daemon, report.0) then
        var t := TallyOf(s, report.0);
        arrived.(rows := Completed(s.rows, daemon, report.0, report.1),
                 overtaken := s.overtaken + {report.0},
                 tally := s.tally[report.0 := t.(stores := t.stores + 1)])
      else arrived
    case _ =>
      if s.batch == [] then s else StepBatch(s, daemon, e)
  }

  /** The daemon's moves on the first request of its batch. */
  function StepBatch(s: Relay, daemon: string, e: Event): Relay
    requires s.batch != []
  {
    var id := s.batch[0];
    var t := TallyOf(s, id);
    match e
    case DecodeFails =>
      s.(phase := Reporting(UNDECODABLE, false), tally := s.tally[id := t.(undecodable := t.undecodable + 1)])
    case Begin => s.(phase := Working, tally := s.tally[id := t.(attempts := t.attempts + 1)])
    case Answer(result) => s.(phase := Reporting(result, true))
    case ReportLands =>
      if !s.phase.Reporting? then s else
      var done := s.(batch := s.batch[1..], phase := Ready);
      if CanComplete(s.rows, daemon, id) then
        done.(rows := Completed(s.rows, daemon, id, s.phase.result),
              tally := s.tally[id := t.(landed := t.landed + 1, stores := t.stores + 1)])
      else done.(tally := s.tally[id := t.(failedReports := t.failedReports + 1)])
    case ReportFails(stillOnItsWay) =>
      if !s.phase.Reporting? then s else
      s.(batch := s.batch[1..], phase := Ready,
         late := if stillOnItsWay then s.late + {(id, s.phase.result)} else s.late,
         tally := s.tally[id := t.(failedReports := t.failedReports + 1)])
    case _ => s
  }

  /** A run: every event is possible where it happens. */
  ghost predicate Possible(s: Relay, daemon: string, es: seq<Event>)
    decreases |es|
  {
    es == [] || (Enabled(s, daemon, es[0]) && Possible(Step(s, daemon, es[0]), daemon, es[1..]))
  }

  function Run(s: Relay, daemon: string, es: seq<Event>): Relay
    decreases |es|
  {
    if es == [] then s else Run(Step(s, daemon, es[0]), daemon, es[1..])
  }

  const START := Relay(map[], [], Ready, {}, 0, {}, {}, map[])

  /** id is being executed or was, and its report has not been made. */
  predicate InHand(s: Relay, id: string) {
    s.batch != [] && s.batch[0] == id && (s.phase.Working? || (s.phase.Reporting? && s.phase.ran))
  }

  /** A request to this daemon. */
  predicate Mine(s: Relay, daemon: string, id: string) {
    id in s.rows && s.rows[id].daemon == daemon
  }

  /** What every run keeps about one request. */
  ghost predicate RequestInv(s: Relay, daemon: string, id: string) {
    var t := TallyOf(s, id);
    && t.attempts <= t.failedReports + t.crashes + t.landed + (if InHand(s, id) then 1 else 0)
    && (Mine(s, daemon, id) ==>
          && t.stores == (if s.rows[id].status == Done then 1 else 0)
          && (s.rows[id].status == Done <==> s.rows[id].result.Some?)
          && (s.rows[id].status == Done ==> t.attempts + t.undecodable >= 1)
          && (s.rows[id].status == Done ==> (t.landed == 1 <==> id !in s.overtaken)))
    && (id in s.overtaken ==> Mine(s, daemon, id) && s.rows[id].status == Done)
    && (t.landed > 0 ==> t.landed == 1 && Mine(s, daemon, id) && s.rows[id].status == Done && id !in s.batch)
    && (!Mine(s, daemon, id) ==> t == NO_TALLY)
    && (id in s.batch ==> Mine(s, daemon, id) && (s.rows[id].status == Pending <==> id in s.unleased))
    && (s.batch != [] && s.batch[0] == id && s.phase != Ready ==> t.attempts + t.undecodable >= 1)
  }

  /** The request was executed, or did not decode. */
  ghost predicate Tried(s: Relay, daemon: string, id: string) {
    Mine(s, daemon, id) && TallyOf(s, id).attempts + TallyOf(s, id).undecodable >= 1
  }

  ghost predicate Inv(s: Relay, daemon: string) {
    && (forall id :: RequestInv(s, daemon, id))
    && NoDuplicates(s.batch)
    && (forall r :: r in s.late ==> Tried(s, daemon, r.0))
    && (s.batch == [] ==> s.phase == Ready)
  }

  lemma PollKeepsRequest(s: Relay, daemon: string, e: Event, id: string)
    requires Inv(s, daemon) && Enabled(s, daemon, e) && e.Poll?
    ensures RequestInv(Step(s, daemon, e), daemon, id)
  {
    assert RequestInv(s, daemon, id);
    if id in e.ids {
      assert Eligible(s.rows, daemon, e.now, id);
    }
  }

  lemma StrayPollKeepsRequest(s: Relay, daemon: string, e: Event, id: string)
    requires Inv(s, daemon) && Enabled(s, daemon, e) && e.StrayPollLands?
    ensures RequestInv(Step(s, daemon, e), daemon, id)
  {
    assert RequestInv(s, daemon, id);
    if id in e.ids {
      assert Eligible(s.rows, daemon, e.now, id);
    }
  }

  lemma OthersKeepRequest(s: Relay, daemon: string, e: Event, id: string)
    requires Inv(s, daemon) && Enabled(s, daemon, e) && (e.OtherPolls? || e.OtherReports?)
    ensures RequestInv(Step(s, daemon, e), daemon, id)
  {
    assert RequestInv(s, daemon, id);
    assert Mine(Step(s, daemon, e), daemon, id) <==> Mine(s, daemon, id);
    if Mine(s, daemon, id) {
      match e
      case OtherPolls(other, ids, _, now) =>
        OtherDaemonsDoNotInterfere(s.rows, daemon, other, ids, now, id, id, UNDECODABLE);
      case OtherReports(other, done, result) =>
        OtherDaemonsDoNotInterfere(s.rows, daemon, other, [], 0, id, done, result);
    }
  }

  lemma LateKeepsRequest(s: Relay, daemon: string, e: Event, id: string)
    requires Inv(s, daemon) && Enabled(s, daemon, e) && e.LateLands?
    ensures RequestInv(Step(s, daemon, e), daemon, id)
  {
    assert RequestInv(s, daemon, id);
    assert RequestInv(s, daemon, e.report.0);
  }

  lemma BatchKeepsRequest(s: Relay, daemon: string, e: Event, id: string)
    requires Inv(s, daemon) && Enabled(s, daemon, e)
    requires e.DecodeFails? || e.Begin? || e.Answer? || e.ReportFails?
    ensures RequestInv(Step(s, daemon, e), daemon, id)
  {
    assert RequestInv(s, daemon, id);
  }

  lemma LandingKeepsRequest(s: Relay, daemon: string, e: Event, id: string)
    requires Inv(s, daemon) && Enabled(s, daemon, e) && e.ReportLands?
    ensures RequestInv(Step(s, daemon, e), daemon, id)
  {
    assert RequestInv(s, daemon, id);
    assert RequestInv(s, daemon, s.batch[0]);
    assert s.batch == [s.batch[0]] + s.batch[1..];
  }

  lemma RestKeepsRequest(s: Relay, daemon: string, e: Event, id: string)
    requires Inv(s, daemon) && Enabled(s, daemon, e) && (e.Enqueue? || e.GiveUpOnPoll? || e.Crash?)
    ensures RequestInv(Step(s, daemon, e), daemon, id)
  {
    assert RequestInv(s, daemon, id);
  }

  lemma StepKeepsRequest(s: Relay, daemon: string, e: Event, id: string)
    requires Inv(s, daemon) && Enabled(s, daemon, e)
    ensures RequestInv(Step(s, daemon, e), daemon, id)
  {
    hide Step, Inv, RequestInv, Enabled;
    match e
    case Poll(_, _, _, _) => PollKeepsRequest(s, daemon, e, id);
    case LateLands(_) => LateKeepsRequest(s, daemon, e, id);
    case ReportLands => LandingKeepsRequest(s, daemon, e, id);
    case StrayPollLands(_, _, _) => StrayPollKeepsRequest(s, daemon, e, id);
    case OtherPolls(_, _, _, _) => OthersKeepRequest(s, daemon, e, id);
    case OtherReports(_, _, _) => OthersKeepRequest(s, daemon, e, id);
    case Enqueue(_, _) => RestKeepsRequest(s, daemon, e, id);
    case GiveUpOnPoll => RestKeepsRequest(s, daemon, e, id);
    case Crash(_) => RestKeepsRequest(s, daemon, e, id);
    case _ => BatchKeepsRequest(s, daemon, e, id);
  }

  lemma StepKeepsTried(s: Relay, daemon: string, e: Event, id: string)
    requires Enabled(s, daemon, e) && Tried(s, daemon, id)
    ensures Tried(Step(s, daemon, e), daemon, id)
  {
  }

  lemma StepKeepsBatch(s: Relay, daemon: string, e: Event)
    requires Enabled(s, daemon, e) && NoDuplicates(s.batch) && (s.batch == [] ==> s.phase == Ready)
    ensures var t := Step(s, daemon, e);
            NoDuplicates(t.batch) && (t.batch == [] ==> t.phase == Ready)
  {
  }

  lemma StepKeepsInv(s: Relay, daemon: string, e: Event)
    requires Inv(s, daemon) && Enabled(s, daemon, e)
    ensures Inv(Step(s, daemon, e), daemon)
  {
    forall id
      ensures RequestInv(Step(s, daemon, e), daemon, id)
    {
      StepKeepsRequest(s, daemon, e, id);
    }
    forall r | r in Step(s, daemon, e).late
      ensures Tried(Step(s, daemon, e), daemon, r.0)
    {
      if s.batch != [] {
        assert RequestInv(s, daemon, s.batch[0]);
      }
      StepKeepsTried(s, daemon, e, r.0);
    }
    StepKeepsBatch(s, daemon, e);
  }

  lemma {:induction false} RunKeepsInv(s: Relay, daemon: string, es: seq<Event>)
    requires Inv(s, daemon) && Possible(s, daemon, es)
    ensures Inv(Run(s, daemon, es), daemon)
    decreases |es|
  {
    if es != [] {
      StepKeepsInv(s, daemon, es[0]);
      RunKeepsInv(Step(s, daemon, es[0]), daemon, es[1..]);
    }
  }

  /**
   Over every run: a request to the daemon is executed at most once plus once for
   each of its failed reports and crashes; a result is stored exactly once, on
   requests that are done, and only after an execution or a body that did not decode.
   */
  lemma ExecutionsAreBounded(daemon: string, es: seq<Event>, id: string)
    requires Possible(START, daemon, es)
    ensures var s := Run(START, daemon, es);
            var t := TallyOf(s, id);
            && t.attempts <= 1 + t.failedReports + t.crashes
            && (Mine(s, daemon, id) ==> t.stores == if s.rows[id].status == Done then 1 else 0)
            && (t.stores > 0 ==> t.attempts + t.undecodable >= 1)
  {
    assert Inv(START, daemon);
    RunKeepsInv(START, daemon, es);
    assert RequestInv(Run(START, daemon, es), daemon, id);
  }

  /**
   When the daemon reports, its request is still leased, so the result is stored,
   exactly unless a call it had given up on arrived since: a report of the same
   request, or a poll that took the request back and handed others out.
   */
  lemma BatchIsStillLeased(daemon: string, es: seq<Event>, id: string)
    requires Possible(START, daemon, es)
    requires id in Run(START, daemon, es).batch
    ensures var s := Run(START, daemon, es);
            CanComplete(s.rows, daemon, id) <==> id !in s.overtaken && id !in s.unleased
  {
    assert Inv(START, daemon);
    RunKeepsInv(START, daemon, es);
    assert RequestInv(Run(START, daemon, es), daemon, id);
  }

  /** A request of daemon "d" whose report the daemon has given up on, or crashed with. */
  ghost predicate GivenUp(s: Relay) {
    && s.rows.Keys == {"r"} && s.rows["r"] == REQUEST.(status := Leased, leasedAt := Some(0))
    && s.batch == [] && s.late == {("r", UNDECODABLE)}
  }

  ghost predicate Handed(s: Relay) {
    && s.rows.Keys == {"r"} && s.rows["r"] == REQUEST.(status := Leased, leasedAt := Some(0))
    && s.batch == ["r"] && s.phase == Ready && s.late == {}
  }

  lemma GetsHanded()
    ensures var es := [Enqueue("r", REQUEST), Poll(["r"], 1, 0, true)];
            Possible(START, "d", es) && Handed(Run(START, "d", es))
  {
    var enqueue, poll := Enqueue("r", REQUEST), Poll(["r"], 1, 0, true);
    var s1 := Step(START, "d", enqueue);
    OnlyRequest(s1.rows, 0);
    assert Handed(Step(s1, "d", poll));
    RunOne(s1, "d", poll);
    RunMore(START, "d", enqueue, [poll]);
  }

  lemma GivesUpAt(s: Relay, lost: Event)
    requires lost == ReportFails(true) || lost == Crash(true)
    requires Handed(s)
    ensures var s1 := Step(s, "d", Begin);
            var s2 := Step(s1, "d", Answer(UNDECODABLE));
            && Enabled(s, "d", Begin) && Enabled(s1, "d", Answer(UNDECODABLE)) && Enabled(s2, "d", lost)
            && GivenUp(Step(s2, "d", lost))
  {
  }

  lemma GivesUp(s: Relay, lost: Event)
    requires lost == ReportFails(true) || lost == Crash(true)
    requires Handed(s)
    ensures var es := [Begin, Answer(UNDECODABLE), lost];
            Possible(s, "d", es) && GivenUp(Run(s, "d", es))
  {
    hide Step, Enabled;
    GivesUpAt(s, lost);
    var s1 := Step(s, "d", Begin);
    var s2 := Step(s1, "d", Answer(UNDECODABLE));
    RunOne(s2, "d", lost);
    RunMore(s1, "d", Answer(UNDECODABLE), [lost]);
    RunMore(s, "d", Begin, [Answer(UNDECODABLE), lost]);
  }

  lemma LandsInTheNextBatch(s: Relay)
    requires GivenUp(s)
    ensures var es := [Poll(["r"], 1, 121, true), LateLands(("r", UNDECODABLE))];
            Possible(s, "d", es) && "r" in Run(s, "d", es).batch && "r" in Run(s, "d", es).overtaken
  {
    OnlyRequest(s.rows, 121);
    var poll, lands := Poll(["r"], 1, 121, true), LateLands(("r", UNDECODABLE));
    var s1 := Step(s, "d", poll);
    RunOne(s1, "d", lands);
    RunMore(s, "d", poll, [lands]);
  }

  /** The first exception happens: a report that was given up on, or on its way in a crash, lands during the next batch. */
  lemma LateReportOvertakes(lost: Event)
    requires lost == ReportFails(true) || lost == Crash(true)
    ensures var es := [Enqueue("r", REQUEST), Poll(["r"], 1, 0, true)] + [Begin, Answer(UNDECODABLE), lost]
                      + [Poll(["r"], 1, 121, true), LateLands(("r", UNDECODABLE))];
            Possible(START, "d", es) && "r" in Run(START, "d", es).batch && "r" in Run(START, "d", es).overtaken
  {
    hide Step, Enabled;
    var first, second := [Enqueue("r", REQUEST), Poll(["r"], 1, 0, true)], [Begin, Answer(UNDECODABLE), lost];
    GetsHanded();
    GivesUp(Run(START, "d", first), lost);
    RunConcat(START, "d", first, second);
    LandsInTheNextBatch(Run(START, "d", first + second));
    RunConcat(START, "d", first + second, [Poll(["r"], 1, 121, true), LateLands(("r", UNDECODABLE))]);
  }

  /** Two requests: the older one leased at 0 in a poll whose answer was lost, the younger one in hand since 1; a poll is on its way. */
  ghost predicate StrayOnItsWay(s: Relay) {
    && s.rows.Keys == {"a", "b"} && s.stray > 0 && s.batch == ["b"]
    && s.rows["a"] == REQUEST.(status := Leased, leasedAt := Some(0))
    && s.rows["b"] == REQUEST.(createdAt := 1, status := Leased, leasedAt := Some(1))
  }

  ghost predicate AnswerLost(s: Relay) {
    && s.rows.Keys == {"a"} && s.rows["a"] == REQUEST.(status := Leased, leasedAt := Some(0))
    && s.batch == []
  }

  lemma LosesAnswer()
    ensures var es := [Enqueue("a", REQUEST), Poll(["a"], 1, 0, false)];
            Possible(START, "d", es) && AnswerLost(Run(START, "d", es))
  {
    var enqueue, poll := Enqueue("a", REQUEST), Poll(["a"], 1, 0, false);
    var s1 := Step(START, "d", enqueue);
    assert EligibleIds(s1.rows, "d", 0) == {"a"};
    assert AnswerLost(Step(s1, "d", poll));
    RunOne(s1, "d", poll);
    RunMore(START, "d", enqueue, [poll]);
  }

  lemma StrayStartsAt(s: Relay)
    requires AnswerLost(s)
    ensures var second := Enqueue("b", REQUEST.(createdAt := 1));
            var s1 := Step(s, "d", second);
            var s2 := Step(s1, "d", GiveUpOnPoll);
            && Enabled(s, "d", second) && Enabled(s1, "d", GiveUpOnPoll) && Enabled(s2, "d", Poll(["b"], 1, 1, true))
            && StrayOnItsWay(Step(s2, "d", Poll(["b"], 1, 1, true)))
  {
    var s1 := Step(s, "d", Enqueue("b", REQUEST.(createdAt := 1)));
    var s2 := Step(s1, "d", GiveUpOnPoll);
    assert EligibleIds(s2.rows, "d", 1) == {"b"};
  }

  lemma StrayStarts(s: Relay)
    requires AnswerLost(s)
    ensures var es := [Enqueue("b", REQUEST.(createdAt := 1)), GiveUpOnPoll, Poll(["b"], 1, 1, true)];
            Possible(s, "d", es) && StrayOnItsWay(Run(s, "d", es))
  {
    hide Step, Enabled;
    StrayStartsAt(s);
    var second, poll := Enqueue("b", REQUEST.(createdAt := 1)), Poll(["b"], 1, 1, true);
    var s1 := Step(s, "d", second);
    var s2 := Step(s1, "d", GiveUpOnPoll);
    RunOne(s2, "d", poll);
    RunMore(s1, "d", GiveUpOnPoll, [poll]);
    RunMore(s, "d", second, [GiveUpOnPoll, poll]);
  }

  lemma StrayLands(s: Relay)
    requires StrayOnItsWay(s)
    ensures var e := StrayPollLands(["a"], 1, 200);
            Possible(s, "d", [e]) && "b" in Run(s, "d", [e]).batch && "b" in Run(s, "d", [e]).unleased
  {
    assert EligibleIds(s.rows, "d", 200) == {"a", "b"};
    RunOne(s, "d", StrayPollLands(["a"], 1, 200));
  }

  /** And the second: a poll that was given up on takes back a request in hand, and hands an older one out instead. */
  lemma StrayPollTakesBack()
    ensures var es := [Enqueue("a", REQUEST), Poll(["a"], 1, 0, false)]
                      + [Enqueue("b", REQUEST.(createdAt := 1)), GiveUpOnPoll, Poll(["b"], 1, 1, true)]
                      + [StrayPollLands(["a"], 1, 200)];
            Possible(START, "d", es) && "b" in Run(START, "d", es).batch && "b" in Run(START, "d", es).unleased
  {
    hide Step, Enabled;
    var first := [Enqueue("a", REQUEST), Poll(["a"], 1, 0, false)];
    var second := [Enqueue("b", REQUEST.(createdAt := 1)), GiveUpOnPoll, Poll(["b"], 1, 1, true)];
    LosesAnswer();
    StrayStarts(Run(START, "d", first));
    RunConcat(START, "d", first, second);
    StrayLands(Run(START, "d", first + second));
    RunConcat(START, "d", first + second, [StrayPollLands(["a"], 1, 200)]);
  }

  const REQUEST := Row("d", "hook", "body", Pending, None, 0, None)

  lemma OnlyRequest(rows: Rows, now: int)
    requires rows.Keys == {"r"} && rows["r"].daemon == "d" && (rows["r"].status == Pending || LeaseExpired(rows["r"], now))
    ensures OldestEligible(rows, "d", 1, now, ["r"])
  {
    assert EligibleIds(rows, "d", now) == {"r"};
  }

  lemma RunMore(s: Relay, daemon: string, e: Event, es: seq<Event>)
    requires Enabled(s, daemon, e) && Possible(Step(s, daemon, e), daemon, es)
    ensures Possible(s, daemon, [e] + es) && Run(s, daemon, [e] + es) == Run(Step(s, daemon, e), daemon, es)
  {
    assert ([e] + es)[1..] == es;
  }

  lemma PollSkipsDone(rows: Rows, daemon: string, limit: nat, now: int, ids: seq<string>, id: string)
    requires OldestEligible(rows, daemon, limit, now, ids)
    requires id in rows && rows[id].status == Done
    ensures id !in ids && Polled(rows, daemon, ids, now)[id] == rows[id]
  {
    assert !Eligible(rows, daemon, now, id);
  }

  /** A request that is done stays done, with the result it has. */
  lemma {:induction false} DoneIsFinal(s: Relay, daemon: string, es: seq<Event>, id: string)
    requires Possible(s, daemon, es)
    requires id in s.rows && s.rows[id].status == Done
    ensures id in Run(s, daemon, es).rows && Run(s, daemon, es).rows[id] == s.rows[id]
    decreases |es|
  {
    if es != [] {
      var e := es[0];
      if e.Poll? || e.StrayPollLands? {
        PollSkipsDone(s.rows, daemon, e.limit, e.now, e.ids, id);
      } else if e.OtherPolls? {
        PollSkipsDone(s.rows, e.other, e.limit, e.now, e.ids, id);
      }
      DoneIsFinal(Step(s, daemon, e), daemon, es[1..], id);
    }
  }

  /** Another daemon's poll or report cannot touch this daemon's requests. */
  lemma OtherDaemonsDoNotInterfere(rows: Rows, daemon: string, other: string, ids: seq<string>, now: int, id: string, done: string, result: RelayResult)
    requires daemon != other && id in rows && rows[id].daemon == daemon
    ensures Polled(rows, other, ids, now)[id] == rows[id]
    ensures Completed(rows, other, done, result)[id] == rows[id]
  {
  }

  /** The event leases the request to the daemon. */
  predicate HandsOut(e: Event, id: string) {
    (e.Poll? || e.StrayPollLands?) && id in e.ids
  }

  /** None of the events leases the request, and no poll of the daemon among them comes after `until`. */
  predicate NotLeasedAgain(es: seq<Event>, id: string, until: int) {
    forall i :: 0 <= i < |es| ==> !HandsOut(es[i], id) && (es[i].Poll? || es[i].StrayPollLands? ==> es[i].now <= until)
  }

  /** The request is done, or still under its lease of time t, or was taken back when that had run out. */
  ghost predicate Held(rows: Rows, daemon: string, id: string, t: int, u: int) {
    && id in rows && rows[id].daemon == daemon
    && (|| rows[id].status == Done
        || (rows[id].status == Leased && rows[id].leasedAt == Some(t))
        || (rows[id].status == Pending && t + 120 < u))
  }

  lemma StepHolds(s: Relay, daemon: string, e: Event, id: string, t: int, u: int)
    requires Enabled(s, daemon, e) && Held(s.rows, daemon, id, t, u)
    requires !HandsOut(e, id) && (e.Poll? || e.StrayPollLands? ==> e.now <= u)
    ensures Held(Step(s, daemon, e).rows, daemon, id, t, u)
  {
    match e
    case OtherPolls(other, ids, _, now) =>
      OtherDaemonsDoNotInterfere(s.rows, daemon, other, ids, now, id, id, UNDECODABLE);
    case OtherReports(other, done, result) =>
      OtherDaemonsDoNotInterfere(s.rows, daemon, other, [], 0, id, done, result);
    case _ =>
  }

  lemma {:induction false} RunHolds(s: Relay, daemon: string, es: seq<Event>, id: string, t: int, u: int)
    requires Possible(s, daemon, es) && Held(s.rows, daemon, id, t, u) && NotLeasedAgain(es, id, u)
    ensures Held(Run(s, daemon, es).rows, daemon, id, t, u)
    decreases |es|
  {
    if es != [] {
      assert !HandsOut(es[0], id);
      StepHolds(s, daemon, es[0], id, t, u);
      assert NotLeasedAgain(es[1..], id, u);
      RunHolds(Step(s, daemon, es[0]), daemon, es[1..], id, t, u);
    }
  }

  lemma LeaseStarts(s: Relay, daemon: string, lease: Event, id: string, u: int)
    requires HandsOut(lease, id) && Enabled(s, daemon, lease)
    ensures Held(Step(s, daemon, lease).rows, daemon, id, lease.now, u)
  {
    PolledRowIs(s.rows, daemon, lease.limit, lease.now, lease.ids);
  }

  /**
   A lease holds for two minutes, over every run: a request leased at some time,
   neither done nor leased again since, is handed out by its daemon's poll at time u
   only if more than two minutes have passed, and then it is, unless the poll is full.
   */
  lemma LeaseRunsOutExactly(s: Relay, daemon: string, lease: Event, es: seq<Event>, id: string, u: int, limit: nat, ids: seq<string>)
    requires HandsOut(lease, id) && Enabled(s, daemon, lease) && Possible(Step(s, daemon, lease), daemon, es)
    requires NotLeasedAgain(es, id, u)
    requires var rows := Run(Step(s, daemon, lease), daemon, es).rows;
             OldestEligible(rows, daemon, limit, u, ids) && (id in rows ==> rows[id].status != Done)
    ensures id in ids ==> lease.now + 120 < u
    ensures lease.now + 120 < u && |ids| < limit ==> id in ids
  {
    hide Step, Enabled, Polled, Oldest, OldestEligible;
    LeaseStarts(s, daemon, lease, id, u);
    RunHolds(Step(s, daemon, lease), daemon, es, id, lease.now, u);
    PolledRowIs(Run(Step(s, daemon, lease), daemon, es).rows, daemon, limit, u, ids);
  }

  // ----------------------------------------------------- the daemon's polling

  lemma {:induction false} RunConcat(s: Relay, daemon: string, a: seq<Event>, b: seq<Event>)
    requires Possible(s, daemon, a) && Possible(Run(s, daemon, a), daemon, b)
    ensures Possible(s, daemon, a + b)
    ensures Run(s, daemon, a + b) == Run(Run(s, daemon, a), daemon, b)
    decreases |a|
  {
    if a == [] {
      assert a + b == b;
    } else {
      assert (a + b)[1..] == a[1..] + b;
      RunConcat(Step(s, daemon, a[0]), daemon, a[1..], b);
    }
  }

  lemma RunOne(s: Relay, daemon: string, e: Event)
    requires Enabled(s, daemon, e)
    ensures Possible(s, daemon, [e]) && Run(s, daemon, [e]) == Step(s, daemon, e)
  {
    assert [e][1..] == [];
    assert Run(Step(s, daemon, e), daemon, []) == Step(s, daemon, e);
  }

  /** The state the machine reaches, when the real table agrees with it. */
  ghost predicate Reached(s: Relay, daemon: string, es: seq<Event>, rows: Rows, batch: seq<string>) {
    && Possible(s, daemon, es)
    && Run(s, daemon, es).rows == rows && Run(s, daemon, es).batch == batch
    && Run(s, daemon, es).phase == Ready
  }

  lemma ReachFurther(s: Relay, daemon: string, es: seq<Event>, more: seq<Event>, rows: Rows, batch: seq<string>)
    requires Possible(s, daemon, es) && Reached(Run(s, daemon, es), daemon, more, rows, batch)
    ensures Reached(s, daemon, es + more, rows, batch)
  {
    RunConcat(s, daemon, es, more);
  }

  class RelayPoller {
    const daemon: string
    const cloud: WebhookTable

    constructor (daemon: string, cloud: WebhookTable)
      ensures this.daemon == daemon && this.cloud == cloud
    {
      this.daemon, this.cloud := daemon, cloud;
    }

    /**
     One tick: poll, then work the batch off request by request. Whatever the
     network and the executor do, this is a run of the machine above that ends
     with the batch empty.
     */
    method PollOnce(now: int, ghost s: Relay) returns (ghost es: seq<Event>)
      requires s.rows == cloud.rows && s.batch == [] && s.phase == Ready
      modifies cloud
      ensures Reached(s, daemon, es, cloud.rows, [])
    {
      es := [];
      var reached := *;
      if !reached {
        ghost var onItsWay := *;
        if onItsWay {
          es := [GiveUpOnPoll];
          RunOne(s, daemon, GiveUpOnPoll);
        }
        return;
      }
      var ids := cloud.ListPendingWebhooks(daemon, 0, now);
      var delivered := *;
      ghost var poll := Poll(ids, PENDING_LIMIT, now, delivered);
      es := [poll];
      RunOne(s, daemon, poll);
      if !delivered {
        return;
      }
      var i := 0;
      while i < |ids|
        invariant 0 <= i <= |ids|
        invariant Reached(s, daemon, es, cloud.rows, ids[i..])
      {
        assert ids[i..][0] == ids[i] && ids[i..][1..] == ids[i + 1..];
        ghost var more := Process(ids[i], Run(s, daemon, es));
        ReachFurther(s, daemon, es, more, cloud.rows, ids[i + 1..]);
        es := es + more;
        i := i + 1;
      }
    }

    /** Decodes, executes and reports one request. */
    method Process(id: string, ghost s: Relay) returns (ghost es: seq<Event>)
      requires s.rows == cloud.rows && s.batch != [] && s.batch[0] == id && s.phase == Ready
      modifies cloud
      ensures Reached(s, daemon, es, cloud.rows, s.batch[1..])
    {
      var decoded := *;
      var result := UNDECODABLE;
      if !decoded {
        es := [DecodeFails];
        RunOne(s, daemon, DecodeFails);
      } else {
        result := *;
        RunOne(s, daemon, Begin);
        RunOne(Step(s, daemon, Begin), daemon, Answer(result));
        RunConcat(s, daemon, [Begin], [Answer(result)]);
        es := [Begin] + [Answer(result)];
      }
      ghost var last := Report(id, result, Run(s, daemon, es));
      RunConcat(s, daemon, es, [last]);
      es := es + [last];
    }

    /** Posts a result; the daemon only learns whether the call succeeded. */
    method Report(id: string, result: RelayResult, ghost s: Relay) returns (ghost e: Event)
      requires s.rows == cloud.rows && s.batch != [] && s.batch[0] == id
      requires s.phase.Reporting? && s.phase.result == result
      modifies cloud
      ensures Reached(s, daemon, [e], cloud.rows, s.batch[1..])
    {
      var arrives := *;
      if arrives {
        var ok := cloud.CompleteWebhook(daemon, id, result);
        e := ReportLands;
      } else {
        ghost var onItsWay := *;
        e := ReportFails(onItsWay);
      }
      RunOne(s, daemon, e);
    }
  }
}
