/**
 The attach of the daemon's agent, taken apart. It is two statements: a read that
 looks at the row, and an update that names the row by id alone and is issued only
 if the row read was not active yet. Any calls, and the statements of any number
 of other attaches, may come in between.
 */
module TerminalAttach {
  import opened Wrappers
  import opened Sequences
  import opened CloudTerminal

  /** An attach that found its row live; writes says whether the row it read asks for the update. */
  datatype Reading = Reading(id: string, writes: bool)

  /** The machine of whole calls, and the attaches between their two statements. */
  datatype Split = Split(m: Machine, open: map<nat, Reading>)

  datatype SplitEvent =
    | Whole(call: Timed)
    | ReadsRow(attach: nat, daemon: string, id: string)
    | WritesRow(attach: nat, now: int)

  predicate Unstarted(row: Session) {
    row.status != Active || row.startedAt.None?
  }

  /** The update, on whatever the row is by now. */
  function Started(t: Table, id: string, now: int): Table {
    if id in t then t[id := t[id].(status := Active, startedAt := Some(now), updatedAt := now)] else t
  }

  function SplitStep(s: Split, quota: int, e: SplitEvent): Split {
    match e
    case Whole(call) => s.(m := Step(s.m, quota, call))
    case ReadsRow(a, daemon, id) =>
      if a !in s.open && MayAttach(s.m.table, daemon, id)
      then s.(open := s.open[a := Reading(id, Unstarted(s.m.table[id]))]) else s
    case WritesRow(a, now) =>
      if a !in s.open then s
      else if s.open[a].writes
      then Split(s.m.(table := Started(s.m.table, s.open[a].id, now)), s.open - {a})
      else s.(open := s.open - {a})
  }

  function SplitRun(s: Split, quota: int, es: seq<SplitEvent>): Split
    decreases |es|
  {
    if es == [] then s else SplitRun(SplitStep(s, quota, es[0]), quota, es[1..])
  }

  // -------------------------------------------------- what one update can do

  /** The event is an update of this row, which is still there. */
  predicate Updates(s: Split, e: SplitEvent, id: string) {
    e.WritesRow? && e.attach in s.open && s.open[e.attach] == Reading(id, true) && id in s.m.table
  }

  /** It brings an ended session back. */
  predicate Revives(s: Split, e: SplitEvent, id: string) {
    Updates(s, e, id) && !IsLive(s.m.table[id])
  }

  /** It stamps a start over another. */
  predicate Restamps(s: Split, e: SplitEvent, id: string) {
    Updates(s, e, id) && s.m.table[id].status == Active && s.m.table[id].startedAt != Some(e.now)
  }

  /** The update finds a row that is no longer waiting for it. */
  predicate Late(s: Split, e: SplitEvent, id: string) {
    Updates(s, e, id) && s.m.table[id].status != Pending && s.m.table[id].status != Offered
  }

  /** An update that is not late is the atomic attach at its moment. */
  lemma UpdateInTimeIsAnAttach(s: Split, quota: int, e: SplitEvent, id: string)
    requires Updates(s, e, id) && !Late(s, e, id)
    ensures SplitStep(s, quota, e).m == Step(s.m, quota, Timed(Attach(s.m.table[id].daemon, id), e.now))
  {
  }

  // --------------------------------------------- a calm attach: whole calls only

  /** One of the calls is an attach of the row by its daemon. */
  predicate AttachedIn(m: Machine, quota: int, es: seq<Timed>, id: string)
    decreases |es|
  {
    && es != [] && id in m.table
    && (es[0].event == Attach(m.table[id].daemon, id) || AttachedIn(Step(m, quota, es[0]), quota, es[1..], id))
  }

  lemma CallActivatesExactly(m: Machine, quota: int, e: Timed, id: string)
    requires Core(m) && LiveRow(m, id) && LiveRow(Step(m, quota, e), id)
    ensures Step(m, quota, e).table[id].status == Active
            <==> m.table[id].status == Active || e.event == Attach(m.table[id].daemon, id)
    ensures Step(m, quota, e).table[id].daemon == m.table[id].daemon
  {
    StepMoves(m, quota, e, id);
  }

  /** Nothing but an attach makes a live row active. */
  lemma {:induction false} ActiveExactlyByAttach(m: Machine, quota: int, es: seq<Timed>, id: string)
    requires Inv(m, quota) && LiveRow(m, id) && LiveRow(Run(m, quota, es), id)
    ensures Run(m, quota, es).table[id].status == Active
            <==> m.table[id].status == Active || AttachedIn(m, quota, es, id)
    decreases |es|
  {
    hide Step, Kept, Moves;
    if es != [] {
      var next := Step(m, quota, es[0]);
      StepKeepsInv(m, quota, es[0]);
      StepMoves(m, quota, es[0], id);
      if LiveRow(next, id) {
        CallActivatesExactly(m, quota, es[0], id);
        ActiveExactlyByAttach(next, quota, es[1..], id);
        if next.table[id].status == Active {
          StaysActive(next, quota, es[1..], id);
        }
      } else {
        EndedStaysEnded(next, quota, es[1..], id);
      }
    }
  }

  lemma StaysActive(m: Machine, quota: int, es: seq<Timed>, id: string)
    requires Inv(m, quota) && LiveRow(m, id) && m.table[id].status == Active
    ensures LiveRow(Run(m, quota, es), id) ==> Run(m, quota, es).table[id].status == Active
  {
    RowsOnlyMoveForward(m, quota, es, id);
  }

  function Wholes(es: seq<Timed>): seq<SplitEvent> {
    if es == [] then [] else [Whole(es[0])] + Wholes(es[1..])
  }

  lemma {:induction false} WholesRun(s: Split, quota: int, es: seq<Timed>)
    ensures SplitRun(s, quota, Wholes(es)) == s.(m := Run(s.m, quota, es))
    decreases |es|
  {
    if es != [] {
      WholesRun(s.(m := Step(s.m, quota, es[0])), quota, es[1..]);
      assert Wholes(es)[1..] == Wholes(es[1..]);
    }
  }

  /**
   What an attach does whose update comes after other calls. It brings an ended
   session back exactly when the row it read was not active, one of the calls ended
   it, and no sweep has pruned it since. It stamps the start over again exactly when
   the row it read was not active, none of the calls ended it, and one of them was
   another attach, at another time.
   */
  lemma SplitAttachRevivesExactly(s: Split, quota: int, read: SplitEvent, es: seq<Timed>, now: int)
    requires Inv(s.m, quota) && read.ReadsRow? && read.attach !in s.open && MayAttach(s.m.table, read.daemon, read.id)
    ensures var before := SplitRun(SplitStep(s, quota, read), quota, Wholes(es));
            var id, update, seen := read.id, WritesRow(read.attach, now), s.m.table[read.id];
            && (Revives(before, update, id)
                <==> seen.status != Active && EndedIn(s.m, quota, es, id) && id in before.m.table)
            && (Restamps(before, update, id)
                <==> && seen.status != Active && !EndedIn(s.m, quota, es, id) && AttachedIn(s.m, quota, es, id)
                     && id in before.m.table && before.m.table[id].startedAt != Some(now))
  {
    var id := read.id;
    WholesRun(SplitStep(s, quota, read), quota, es);
    LiveUnlessEnded(s.m, quota, es, id);
    if LiveRow(Run(s.m, quota, es), id) {
      ActiveExactlyByAttach(s.m, quota, es, id);
    }
  }

  // ------------------------------------------------------ any number of attaches

  /** Live rows that never ended. */
  function UnendedIn(t: Table, workspace: string): set<string> {
    set id | id in t && t[id].workspace == workspace && IsLive(t[id]) && t[id].endedAt.None?
  }

  /** Live rows that had ended. */
  function RevivedIn(t: Table, workspace: string): set<string> {
    set id | id in t && t[id].workspace == workspace && IsLive(t[id]) && t[id].endedAt.Some?
  }

  ghost predicate SplitInv(s: Split, quota: int) {
    Core(s.m) && forall workspace :: |UnendedIn(s.m.table, workspace)| <= Cap(quota)
  }

  lemma OneMoreUnended(t: Table, id: string, row: Session, workspace: string)
    ensures |UnendedIn(t[id := row], workspace)| <= |UnendedIn(t, workspace)| + if row.workspace == workspace then 1 else 0
    ensures |UnendedIn(t, workspace)| <= |LiveIn(t, workspace)|
  {
    var more := if row.workspace == workspace then {id} else {};
    SubsetIsSmaller(UnendedIn(t[id := row], workspace), UnendedIn(t, workspace) + more);
    SubsetIsSmaller(UnendedIn(t, workspace), LiveIn(t, workspace));
  }

  lemma CallKeepsUnended(m: Machine, quota: int, e: Timed, workspace: string)
    requires Core(m) && |UnendedIn(m.table, workspace)| <= Cap(quota)
    ensures |UnendedIn(Step(m, quota, e).table, workspace)| <= Cap(quota)
  {
    var t, after := m.table, Step(m, quota, e).table;
    if e.event.Create? {
      if after != t {
        OneMoreUnended(t, e.event.id, NewSession(e.event.daemon, e.event.workspace, e.event.ticket, e.now), workspace);
      }
    } else {
      forall id | id in UnendedIn(after, workspace)
        ensures id in UnendedIn(t, workspace)
      {
        if id in t {
          StepMoves(m, quota, e, id);
        } else {
          StepCreates(m, quota, e, id);
        }
      }
      SubsetIsSmaller(UnendedIn(after, workspace), UnendedIn(t, workspace));
    }
  }

  lemma UpdateKeepsUnended(t: Table, id: string, now: int, workspace: string)
    requires id in t ==> RowInv(t[id])
    ensures UnendedIn(Started(t, id, now), workspace) == UnendedIn(t, workspace)
  {
  }

  lemma UpdateKeepsCore(m: Machine, id: string, now: int)
    requires Core(m)
    ensures Core(m.(table := Started(m.table, id, now)))
  {
    assert forall other :: Accepted(m.(table := Started(m.table, id, now)), other) == Accepted(m, other);
  }

  lemma SplitStepKeeps(s: Split, quota: int, e: SplitEvent)
    requires SplitInv(s, quota)
    ensures SplitInv(SplitStep(s, quota, e), quota)
  {
    match e
    case Whole(call) =>
      StepKeepsCore(s.m, quota, call);
      forall workspace { CallKeepsUnended(s.m, quota, call, workspace); }
    case ReadsRow(_, _, _) =>
    case WritesRow(a, now) =>
      if a in s.open && s.open[a].writes {
        UpdateKeepsCore(s.m, s.open[a].id, now);
        forall workspace { UpdateKeepsUnended(s.m.table, s.open[a].id, now, workspace); }
      }
  }

  lemma {:induction false} SplitRunKeeps(s: Split, quota: int, es: seq<SplitEvent>)
    requires SplitInv(s, quota)
    ensures SplitInv(SplitRun(s, quota, es), quota)
    decreases |es|
  {
    if es != [] {
      SplitStepKeeps(s, quota, es[0]);
      SplitRunKeeps(SplitStep(s, quota, es[0]), quota, es[1..]);
    }
  }

  const SPLIT_START := Split(START, map[])

  /**
   What every run keeps, however attaches interleave: at most one handshake of a
   session ever succeeds, an active row has a start time and an ended one an end
   time, and the live rows of a workspace exceed its cap by at most the sessions
   that an update brought back.
   */
  lemma EverySplitRun(quota: int, es: seq<SplitEvent>, id: string, workspace: string)
    ensures var m := SplitRun(SPLIT_START, quota, es).m;
            && Accepted(m, id) <= 1
            && (id in m.table ==> RowInv(m.table[id]))
            && |LiveIn(m.table, workspace)| <= Cap(quota) + |RevivedIn(m.table, workspace)|
  {
    assert forall w :: UnendedIn(map[], w) == {};
    SplitRunKeeps(SPLIT_START, quota, es);
    var t := SplitRun(SPLIT_START, quota, es).m.table;
    assert LiveIn(t, workspace) == UnendedIn(t, workspace) + RevivedIn(t, workspace);
  }

  /** A run in which an attach revives: the session is revoked between the attach's read and its update. */
  lemma AttachMayReviveItsSession()
    ensures var create, revoke := Timed(Create("s", "d", "w", "t"), 0), Timed(Revoke("d", "s"), 2);
            var es := [Whole(create), ReadsRow(0, "d", "s"), Whole(revoke), WritesRow(0, 3)];
            var t := SplitRun(SPLIT_START, 1, es).m.table;
            "s" in t && t["s"].status == Active && t["s"].startedAt == Some(3) && t["s"].endedAt == Some(2)
  {
    var create, revoke := Timed(Create("s", "d", "w", "t"), 0), Timed(Revoke("d", "s"), 2);
    var e1, e2, e3 := ReadsRow(0, "d", "s"), Whole(revoke), WritesRow(0, 3);
    assert LiveIn(map[], "w") == {};
    var s1 := SplitStep(SPLIT_START, 1, Whole(create));
    var s2 := SplitStep(s1, 1, e1);
    var s3 := SplitStep(s2, 1, e2);
    var s4 := SplitStep(s3, 1, e3);
    assert [Whole(create), e1, e2, e3][1..] == [e1, e2, e3] && [e1, e2, e3][1..] == [e2, e3];
    assert [e2, e3][1..] == [e3] && [e3][1..] == [];
    assert SplitRun(s3, 1, [e3]) == SplitRun(s4, 1, []);
    assert SplitRun(s2, 1, [e2, e3]) == SplitRun(s3, 1, [e3]);
    assert SplitRun(s1, 1, [e1, e2, e3]) == SplitRun(s2, 1, [e2, e3]);
  }

  // ----------------------------------------- when the promises of the calls hold

  /** The atomic machine's invariant survives a statement exactly when the statement revives nothing. */
  lemma SplitStepKeepsInvExactly(s: Split, quota: int, e: SplitEvent)
    requires Inv(s.m, quota)
    ensures Inv(SplitStep(s, quota, e).m, quota) <==> forall id :: !Revives(s, e, id)
  {
    match e
    case Whole(call) => StepKeepsInv(s.m, quota, call);
    case ReadsRow(_, _, _) =>
    case WritesRow(a, now) =>
      if a in s.open && s.open[a].writes && s.open[a].id in s.m.table {
        var id := s.open[a].id;
        if IsLive(s.m.table[id]) {
          UpdateKeepsCore(s.m, id, now);
          forall workspace
            ensures LiveIn(Started(s.m.table, id, now), workspace) == LiveIn(s.m.table, workspace)
          {
          }
        } else {
          assert Revives(s, e, id);
          assert !SessionInv(SplitStep(s, quota, e).m.table[id]);
        }
      }
  }

  ghost predicate InvThroughout(s: Split, quota: int, es: seq<SplitEvent>)
    decreases |es|
  {
    Inv(s.m, quota) && (es == [] || InvThroughout(SplitStep(s, quota, es[0]), quota, es[1..]))
  }

  ghost predicate NoneRevived(s: Split, quota: int, es: seq<SplitEvent>)
    decreases |es|
  {
    es == [] || ((forall id :: !Revives(s, es[0], id)) && NoneRevived(SplitStep(s, quota, es[0]), quota, es[1..]))
  }

  /** Over runs: all that is promised of the calls holds at every point, exactly when no update brings an ended session back. */
  lemma {:induction false} SplitRunKeepsInvExactly(s: Split, quota: int, es: seq<SplitEvent>)
    requires Inv(s.m, quota)
    ensures InvThroughout(s, quota, es) <==> NoneRevived(s, quota, es)
    decreases |es|
  {
    if es != [] {
      SplitStepKeepsInvExactly(s, quota, es[0]);
      if Inv(SplitStep(s, quota, es[0]).m, quota) {
        SplitRunKeepsInvExactly(SplitStep(s, quota, es[0]), quota, es[1..]);
      }
    }
  }

  /** What one statement does to one row: it moves forward, or is pruned and stays so. */
  ghost predicate Forward(before: Machine, after: Machine, id: string) {
    && (Gone(before, id) ==> Gone(after, id))
    && (id in before.table ==> if id in after.table then Moves(before.table[id], after.table[id]) else Gone(after, id))
  }

  /** A row moves forward in a statement exactly when the statement neither revives it nor stamps its start again. */
  lemma SplitStepMovesExactly(s: Split, quota: int, e: SplitEvent, id: string)
    requires Core(s.m)
    ensures Forward(s.m, SplitStep(s, quota, e).m, id) <==> !Revives(s, e, id) && !Restamps(s, e, id)
  {
    match e
    case Whole(call) =>
      if id in s.m.table {
        StepMoves(s.m, quota, call, id);
      } else if id in Step(s.m, quota, call).table {
        StepCreates(s.m, quota, call, id);
      }
      UsedGrows(s.m, quota, call);
    case ReadsRow(_, _, _) =>
    case WritesRow(a, now) =>
  }

  lemma UsedGrows(m: Machine, quota: int, e: Timed)
    ensures m.used <= Step(m, quota, e).used
  {
  }

  ghost predicate ForwardThroughout(s: Split, quota: int, es: seq<SplitEvent>, id: string)
    decreases |es|
  {
    es == [] || (var next := SplitStep(s, quota, es[0]);
                 Forward(s.m, next.m, id) && ForwardThroughout(next, quota, es[1..], id))
  }

  predicate Overtaken(s: Split, quota: int, es: seq<SplitEvent>, id: string)
    decreases |es|
  {
    es != [] && (Revives(s, es[0], id) || Restamps(s, es[0], id) || Overtaken(SplitStep(s, quota, es[0]), quota, es[1..], id))
  }

  /** Over runs, whatever happens to other rows: a row only moves forward exactly when no update overtakes it. */
  lemma {:induction false} SplitRunMovesExactly(s: Split, quota: int, es: seq<SplitEvent>, id: string)
    requires SplitInv(s, quota)
    ensures ForwardThroughout(s, quota, es, id) <==> !Overtaken(s, quota, es, id)
    decreases |es|
  {
    if es != [] {
      SplitStepKeeps(s, quota, es[0]);
      SplitStepMovesExactly(s, quota, es[0], id);
      SplitRunMovesExactly(SplitStep(s, quota, es[0]), quota, es[1..], id);
    }
  }

  // -------------------------------------------------- refining the atomic machine

  ghost predicate InTime(s: Split, quota: int, es: seq<SplitEvent>)
    decreases |es|
  {
    es == [] || ((forall id :: !Late(s, es[0], id)) && InTime(SplitStep(s, quota, es[0]), quota, es[1..]))
  }

  /** A run whose updates are all in time is a run of whole calls, each attach taking place at its update. */
  lemma {:induction false} InTimeIsAtomic(s: Split, quota: int, es: seq<SplitEvent>) returns (calls: seq<Timed>)
    requires InTime(s, quota, es)
    ensures SplitRun(s, quota, es).m == Run(s.m, quota, calls)
    decreases |es|
  {
    calls := [];
    if es != [] {
      var e, next := es[0], SplitStep(s, quota, es[0]);
      calls := InTimeIsAtomic(next, quota, es[1..]);
      var first := match e
        case Whole(call) => [call]
        case ReadsRow(_, _, _) => []
        case WritesRow(a, now) =>
          if a in s.open && Updates(s, e, s.open[a].id)
          then [Timed(Attach(s.m.table[s.open[a].id].daemon, s.open[a].id), now)] else [];
      if first != [] {
        assert (first + calls)[1..] == calls;
        if e.WritesRow? {
          UpdateInTimeIsAnAttach(s, quota, e, s.open[e.attach].id);
        }
      } else {
        assert next.m == s.m && first + calls == calls;
      }
      calls := first + calls;
    }
  }
}
