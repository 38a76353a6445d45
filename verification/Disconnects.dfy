/**
 Disconnect detection. A daemon is stale once no metric was accepted for a while;
 a periodic evaluation marks stale daemons disconnected and stores a notification
 unless one was stored recently, and an accepted metric clears the mark and
 stores a reconnect notification.
 */
module Disconnects {
  import opened Wrappers

  const DEFAULT_THRESHOLD := 300
  const DEFAULT_COOLDOWN := 1800

  datatype Preference = Normal | Silent | Reject

  datatype Kind = Disconnected | Reconnected | OtherKind

  /**
   A stored notification. `evaluator` tells the evaluation's own from those a
   caller created under the same kind; `epoch` is how many metrics and disables
   the daemon had seen by then (bookkeeping for the statements below).
   */
  datatype Note = Note(kind: Kind, evaluator: bool, at: int, epoch: nat)

  datatype Daemon = Daemon(
    enabled: bool, lastSeen: Option<int>, disconnectedAt: Option<int>, notes: seq<Note>, epoch: nat)

  const NEW_DAEMON := Daemon(true, None, None, [], 0)

  function Threshold(t: int): int {
    if t <= 0 then DEFAULT_THRESHOLD else t
  }

  function Cooldown(c: int): int {
    if c <= 0 then DEFAULT_COOLDOWN else c
  }

  predicate Stale(d: Daemon, threshold: int, now: int) {
    d.lastSeen.Some? && now >= d.lastSeen.value + threshold
  }

  /** When the newest disconnect notification of any source was created. */
  function LatestDisconnect(notes: seq<Note>): (r: Option<int>)
    ensures r.Some? <==> exists n :: n in notes && n.kind == Disconnected
    ensures r.Some? ==> forall n :: n in notes && n.kind == Disconnected ==> n.at <= r.value
    ensures r.Some? ==> exists n :: n in notes && n.kind == Disconnected && n.at == r.value
  {
    if notes == [] then None
    else
      var last := notes[|notes| - 1];
      var earlier := LatestDisconnect(notes[..|notes| - 1]);
      assert notes == notes[..|notes| - 1] + [last];
      if last.kind != Disconnected then earlier
      else if earlier.Some? && earlier.value > last.at then earlier
      else Some(last.at)
  }

  // ------------------------------------------------------- calls on one daemon

  /** One evaluation of an enabled daemon whose preference was looked up. */
  function Evaluated(d: Daemon, preference: Preference, threshold: int, cooldown: int, now: int): Daemon {
    if Stale(d, threshold, now) then
      if d.disconnectedAt.Some? then d
      else
        var previous := LatestDisconnect(d.notes);
        if (previous.Some? && now < previous.value + cooldown) || preference == Reject
        then d.(disconnectedAt := Some(now))
        else d.(disconnectedAt := Some(now), notes := d.notes + [Note(Disconnected, true, now, d.epoch)])
    else d.(disconnectedAt := None)
  }

  /** An accepted metric; the reconnect preference may fail to load. */
  function Ingested(d: Daemon, preference: Option<Preference>, now: int): Daemon {
    var seen := d.(lastSeen := Some(now), disconnectedAt := None, epoch := d.epoch + 1);
    if d.disconnectedAt.Some? && preference.Some? && preference.value != Reject
    then seen.(notes := d.notes + [Note(Reconnected, false, now, d.epoch)])
    else seen
  }

  function Updated(d: Daemon, enabled: Option<bool>): Daemon {
    match enabled
    case None => d
    case Some(true) => d.(enabled := true)
    case Some(false) => Disabled(d)
  }

  function Disabled(d: Daemon): Daemon {
    d.(enabled := false, disconnectedAt := None, epoch := d.epoch + 1)
  }

  // ------------------------------------------ the same, told of the daemon alone

  /** No metric for the threshold, which is five minutes unless configured. */
  predicate Silenced(d: Daemon, threshold: int, now: int) {
    d.lastSeen.Some? && d.lastSeen.value + (if threshold > 0 then threshold else 300) <= now
  }

  /**
   The evaluation stores a notification of a daemon: it is enabled, silent and not
   marked yet, its preference was found and is no rejection, and it has no disconnect
   notification younger than the cooldown, half an hour unless configured.
   */
  ghost predicate Alarms(d: Daemon, preference: Option<Preference>, threshold: int, cooldown: int, now: int) {
    && d.enabled && preference.Some? && preference.value != Reject
    && Silenced(d, threshold, now) && d.disconnectedAt.None?
    && forall n :: n in d.notes && n.kind == Disconnected ==> n.at + (if cooldown > 0 then cooldown else 1800) <= now
  }

  /** What an evaluation leaves of a daemon. */
  ghost predicate EvaluatedTo(d: Daemon, after: Daemon, preference: Option<Preference>, threshold: int, cooldown: int, now: int) {
    && after.enabled == d.enabled && after.lastSeen == d.lastSeen && after.epoch == d.epoch
    && after.notes == d.notes + (if Alarms(d, preference, threshold, cooldown, now)
                                 then [Note(Disconnected, true, now, d.epoch)] else [])
    && after.disconnectedAt == if !d.enabled || preference.None? then d.disconnectedAt
                               else if !Silenced(d, threshold, now) then None
                               else if d.disconnectedAt.Some? then d.disconnectedAt
                               else Some(now)
  }

  lemma EvaluationIs(d: Daemon, preference: Option<Preference>, threshold: int, cooldown: int, now: int)
    ensures var after := if d.enabled && preference.Some?
                         then Evaluated(d, preference.value, Threshold(threshold), Cooldown(cooldown), now) else d;
            && EvaluatedTo(d, after, preference, threshold, cooldown, now)
            && (d.enabled && preference.Some? ==> (after.disconnectedAt.Some? <==> Stale(after, Threshold(threshold), now)))
  {
    var previous := LatestDisconnect(d.notes);
    assert d.notes + [] == d.notes;
    if previous.Some? {
      assert exists n :: n in d.notes && n.kind == Disconnected && n.at == previous.value;
    }
  }

  // ------------------------------------------------------------- all daemons

  class DaemonService {
    var daemons: map<string, Daemon>

    constructor ()
      ensures daemons == map[]
    {
      daemons := map[];
    }

    method CreateDaemon(id: string)
      requires id !in daemons
      modifies this
      ensures daemons == old(daemons)[id := NEW_DAEMON]
    {
      daemons := daemons[id := NEW_DAEMON];
    }

    /**
     A metric of an unknown or disabled daemon is refused, and so is one that fails
     its checks. A reconnect whose preference cannot be looked up is an error too,
     but only after the mark is cleared.
     */
    method IngestMetric(id: string, passes: bool, preference: Option<Preference>, now: int) returns (ok: bool)
      modifies this
      ensures var accepted := id in old(daemons) && old(daemons)[id].enabled && passes;
              && daemons == (if accepted then old(daemons)[id := Ingested(old(daemons)[id], preference, now)] else old(daemons))
              && (ok <==> accepted && (old(daemons)[id].disconnectedAt.None? || preference.Some?))
      ensures id in old(daemons) && old(daemons)[id].enabled && passes ==>
                var before, after := old(daemons)[id], daemons[id];
                && after.enabled && after.lastSeen == Some(now) && after.disconnectedAt.None?
                && after.notes == before.notes +
                     if before.disconnectedAt.Some? && (preference == Some(Normal) || preference == Some(Silent))
                     then [Note(Reconnected, false, now, before.epoch)] else []
    {
      if id !in daemons || !daemons[id].enabled || !passes {
        return false;
      }
      var found := daemons[id];
      var d := found.(lastSeen := Some(now), epoch := found.epoch + 1);
      ok := true;
      if d.disconnectedAt.Some? {
        d := d.(disconnectedAt := None);
        ok := preference.Some?;
        if preference.Some? && preference.value != Reject {
          d := d.(notes := d.notes + [Note(Reconnected, false, now, found.epoch)]);
        }
      }
      daemons := daemons[id := d];
    }

    method UpdateDaemon(id: string, enabled: Option<bool>) returns (ok: bool)
      modifies this
      ensures ok <==> id in old(daemons)
      ensures daemons == if ok then old(daemons)[id := Updated(old(daemons)[id], enabled)] else old(daemons)
      ensures ok ==>
                var before, after := old(daemons)[id], daemons[id];
                && after.enabled == (if enabled.Some? then enabled.value else before.enabled)
                && after.disconnectedAt == (if enabled == Some(false) then None else before.disconnectedAt)
                && after.lastSeen == before.lastSeen && after.notes == before.notes
    {
      if id !in daemons {
        return false;
      }
      var d := daemons[id];
      if enabled.Some? {
        d := d.(enabled := enabled.value);
        if !d.enabled {
          d := d.(disconnectedAt := None, epoch := d.epoch + 1);
        }
      }
      daemons := daemons[id := d];
      return true;
    }

    method DisableDaemon(id: string) returns (ok: bool)
      modifies this
      ensures ok <==> id in old(daemons)
      ensures daemons == if ok then old(daemons)[id := Disabled(old(daemons)[id])] else old(daemons)
      ensures ok ==>
                var before, after := old(daemons)[id], daemons[id];
                && !after.enabled && after.disconnectedAt.None?
                && after.lastSeen == before.lastSeen && after.notes == before.notes
    {
      if id !in daemons {
        return false;
      }
      var d := daemons[id].(enabled := false);
      daemons := daemons[id := d.(disconnectedAt := None, epoch := d.epoch + 1)];
      return true;
    }

    /**
     Evaluates every enabled daemon, in any order. A daemon whose preference
     cannot be looked up is skipped. Afterwards an evaluated daemon is marked
     disconnected exactly when it is stale.
     */
    method EvaluateDisconnected(threshold: int, cooldown: int, preferences: map<string, Preference>, now: int)
      modifies this
      ensures daemons.Keys == old(daemons).Keys
      ensures forall id :: id in daemons ==>
                daemons[id] == if old(daemons)[id].enabled && id in preferences
                               then Evaluated(old(daemons)[id], preferences[id], Threshold(threshold), Cooldown(cooldown), now)
                               else old(daemons)[id]
      ensures forall id :: id in daemons && daemons[id].enabled && id in preferences ==>
                (daemons[id].disconnectedAt.Some? <==> Stale(daemons[id], Threshold(threshold), now))
      ensures forall id :: id in daemons ==>
                EvaluatedTo(old(daemons)[id], daemons[id], if id in preferences then Some(preferences[id]) else None,
                            threshold, cooldown, now)
    {
      hide Evaluated, Stale;
      var after := if threshold <= 0 then DEFAULT_THRESHOLD else threshold;
      var pause := if cooldown <= 0 then DEFAULT_COOLDOWN else cooldown;
      var candidates := set id | id in daemons && daemons[id].enabled;
      ghost var done: set<string> := {};
      while candidates != {}
        invariant daemons.Keys == old(daemons).Keys
        invariant candidates !! done
        invariant forall id :: id in candidates + done <==> id in old(daemons) && old(daemons)[id].enabled
        invariant forall id :: id in daemons ==>
                    daemons[id] == if id in done && id in preferences
                                   then Evaluated(old(daemons)[id], preferences[id], after, pause, now)
                                   else old(daemons)[id]
        decreases candidates
      {
        var id :| id in candidates;
        candidates := candidates - {id};
        if id in preferences {
          EvaluateOne(id, preferences[id], after, pause, now);
        }
        done := done + {id};
      }
      forall id | id in daemons
        ensures EvaluatedTo(old(daemons)[id], daemons[id], if id in preferences then Some(preferences[id]) else None,
                            threshold, cooldown, now)
        ensures daemons[id].enabled && id in preferences ==>
                  (daemons[id].disconnectedAt.Some? <==> Stale(daemons[id], Threshold(threshold), now))
      {
        EvaluationIs(old(daemons)[id], if id in preferences then Some(preferences[id]) else None, threshold, cooldown, now);
      }
    }

    /** The transaction of one daemon. */
    method EvaluateOne(id: string, preference: Preference, threshold: int, cooldown: int, now: int)
      requires id in daemons
      modifies this
      ensures daemons == old(daemons)[id := Evaluated(old(daemons)[id], preference, threshold, cooldown, now)]
      ensures old(daemons)[id].enabled && threshold > 0 && cooldown > 0 ==>
                EvaluatedTo(old(daemons)[id], daemons[id], Some(preference), threshold, cooldown, now)
    {
      EvaluationIs(daemons[id], Some(preference), threshold, cooldown, now);
      var d := daemons[id];
      var stale := d.lastSeen.Some? && !(now < d.lastSeen.value + threshold);
      if stale {
        if d.disconnectedAt.Some? {
          return;
        }
        var previous := LatestDisconnect(d.notes);
        if previous.Some? && now < previous.value + cooldown {
          daemons := daemons[id := d.(disconnectedAt := Some(now))];
          return;
        }
        d := d.(disconnectedAt := Some(now));
        if preference != Reject {
          d := d.(notes := d.notes + [Note(Disconnected, true, now, d.epoch)]);
        }
        daemons := daemons[id := d];
      } else if d.disconnectedAt.Some? {
        daemons := daemons[id := d.(disconnectedAt := None)];
      }
    }
  }

  // -------------------------------------------------------- runs of one daemon

  /** What can happen to one daemon; `at` is the clock, which never goes back. */
  datatype Event =
    | Metric(preference: Option<Preference>)
    | Evaluation(preference: Option<Preference>)
    | Update(enabled: Option<bool>)
    | Disable
    | Notification(kind: Kind)     // created by a caller, not by the evaluation

  datatype Timed = Timed(event: Event, at: int)

  /** Threshold and cooldown are fixed over the run. */
  datatype Config = Config(threshold: int, cooldown: int)

  function Step(c: Config, d: Daemon, e: Timed): Daemon {
    match e.event
    case Metric(preference) => if d.enabled then Ingested(d, preference, e.at) else d
    case Evaluation(preference) =>
      if d.enabled && preference.Some?
      then Evaluated(d, preference.value, Threshold(c.threshold), Cooldown(c.cooldown), e.at) else d
    case Update(enabled) => Updated(d, enabled)
    case Disable => Disabled(d)
    case Notification(kind) => d.(notes := d.notes + [Note(kind, false, e.at, d.epoch)])
  }

  function Run(c: Config, d: Daemon, es: seq<Timed>): Daemon
    decreases |es|
  {
    if es == [] then d else Run(c, Step(c, d, es[0]), es[1..])
  }

  ghost predicate ClockFrom(t: int, es: seq<Timed>) {
    && (forall i :: 0 <= i < |es| ==> t <= es[i].at)
    && (forall i, j :: 0 <= i < j < |es| ==> es[i].at <= es[j].at)
  }

  predicate IsAlarm(n: Note) {
    n.kind == Disconnected && n.evaluator
  }

  /** Two stored alarms are a cooldown apart, with a metric or a disable in between. */
  ghost predicate Spaced(c: Config, notes: seq<Note>) {
    forall i, j :: 0 <= i < j < |notes| && IsAlarm(notes[i]) && IsAlarm(notes[j]) ==>
      notes[i].at + Cooldown(c.cooldown) <= notes[j].at && notes[i].epoch < notes[j].epoch
  }

  ghost predicate Inv(c: Config, d: Daemon, clock: int) {
    && Spaced(c, d.notes)
    && (forall n :: n in d.notes && IsAlarm(n) ==> n.epoch <= d.epoch && (n.epoch == d.epoch ==> d.disconnectedAt.Some?))
    // A mark outlives its evaluation only on a daemon that is still stale.
    && (d.disconnectedAt.Some? ==> Stale(d, Threshold(c.threshold), clock))
  }

  lemma SpacedExtends(c: Config, notes: seq<Note>, n: Note)
    requires Spaced(c, notes)
    requires IsAlarm(n) ==> forall m :: m in notes && IsAlarm(m) ==> m.at + Cooldown(c.cooldown) <= n.at && m.epoch < n.epoch
    ensures Spaced(c, notes + [n])
  {
  }

  lemma EvaluationKeepsInv(c: Config, d: Daemon, clock: int, preference: Preference, at: int)
    requires Inv(c, d, clock) && clock <= at
    ensures Inv(c, Evaluated(d, preference, Threshold(c.threshold), Cooldown(c.cooldown), at), at)
  {
    var after := Evaluated(d, preference, Threshold(c.threshold), Cooldown(c.cooldown), at);
    var previous := LatestDisconnect(d.notes);
    if after.notes != d.notes {
      forall m | m in d.notes && IsAlarm(m)
        ensures m.at + Cooldown(c.cooldown) <= at && m.epoch < d.epoch
      {
        assert previous.Some? && m.at <= previous.value;
      }
      SpacedExtends(c, d.notes, Note(Disconnected, true, at, d.epoch));
    }
  }

  /** A note that is no alarm, and maybe a new epoch, keep it. */
  lemma NoteKeepsInv(c: Config, d: Daemon, clock: int, kind: Kind, at: int)
    requires Inv(c, d, clock) && clock <= at
    ensures Inv(c, d.(notes := d.notes + [Note(kind, false, at, d.epoch)]), at)
  {
    SpacedExtends(c, d.notes, Note(kind, false, at, d.epoch));
  }

  lemma MetricKeepsInv(c: Config, d: Daemon, clock: int, preference: Option<Preference>, at: int)
    requires Inv(c, d, clock) && clock <= at
    ensures Inv(c, Ingested(d, preference, at), at)
  {
    SpacedExtends(c, d.notes, Note(Reconnected, false, at, d.epoch));
  }

  lemma StepKeepsInv(c: Config, d: Daemon, clock: int, e: Timed)
    requires Inv(c, d, clock) && clock <= e.at
    ensures Inv(c, Step(c, d, e), e.at)
  {
    match e.event
    case Evaluation(preference) =>
      if d.enabled && preference.Some? {
        EvaluationKeepsInv(c, d, clock, preference.value, e.at);
      }
    case Metric(preference) =>
      if d.enabled {
        MetricKeepsInv(c, d, clock, preference, e.at);
      }
    case Notification(kind) => NoteKeepsInv(c, d, clock, kind, e.at);
    case _ =>
  }

  lemma {:induction false} RunKeepsInv(c: Config, d: Daemon, clock: int, es: seq<Timed>)
    requires Inv(c, d, clock) && ClockFrom(clock, es)
    ensures Inv(c, Run(c, d, es), if es == [] then clock else es[|es| - 1].at)
    decreases |es|
  {
    if es != [] {
      StepKeepsInv(c, d, clock, es[0]);
      RunKeepsInv(c, Step(c, d, es[0]), es[0].at, es[1..]);
    }
  }

  /** Over every run, the evaluation's disconnect notifications are spaced out. */
  lemma AlarmsAreSpaced(c: Config, clock: int, es: seq<Timed>)
    requires ClockFrom(clock, es)
    ensures Spaced(c, Run(c, NEW_DAEMON, es).notes)
  {
    RunKeepsInv(c, NEW_DAEMON, clock, es);
  }

  /** epoch counts exactly the accepted metrics and the disables. */
  lemma EpochCounts(c: Config, d: Daemon, e: Timed)
    ensures Step(c, d, e).epoch == d.epoch +
              if (e.event.Metric? && d.enabled) || e.event.Disable? || (e.event.Update? && e.event.enabled == Some(false)) then 1 else 0
  {
  }

  /** With a fixed threshold an evaluation never takes a mark back; only a metric or a disable does. */
  lemma OnlyMetricsAndDisablesClear(c: Config, d: Daemon, clock: int, e: Timed)
    requires Inv(c, d, clock) && clock <= e.at
    requires d.disconnectedAt.Some? && Step(c, d, e).disconnectedAt.None?
    ensures (e.event.Metric? && d.enabled) || e.event.Disable? || (e.event.Update? && e.event.enabled == Some(false))
  {
  }

  /** The reconnect notifications stored so far. */
  function Reconnects(notes: seq<Note>): nat {
    if notes == [] then 0
    else Reconnects(notes[..|notes| - 1]) + if notes[|notes| - 1].kind == Reconnected then 1 else 0
  }

  /**
   A reconnect is stored exactly when an accepted metric finds the daemon
   disconnected and its preference is known and not a rejection.
   */
  lemma ReconnectOnlyAfterDisconnect(c: Config, d: Daemon, e: Timed)
    requires e.event.Notification? ==> e.event.kind != Reconnected
    ensures Reconnects(Step(c, d, e).notes) == Reconnects(d.notes) +
              if e.event.Metric? && d.enabled && d.disconnectedAt.Some?
                 && e.event.preference.Some? && e.event.preference.value != Reject then 1 else 0
  {
    var after := Step(c, d, e).notes;
    assert after == d.notes || after[..|after| - 1] == d.notes;
  }

  /** After an evaluation the mark and staleness agree, whatever the daemon looked like before. */
  lemma EvaluationMarksStale(d: Daemon, preference: Preference, threshold: int, cooldown: int, now: int)
    ensures var after := Evaluated(d, preference, threshold, cooldown, now);
            && (after.disconnectedAt.Some? <==> Stale(after, threshold, now))
            && after.enabled == d.enabled && after.lastSeen == d.lastSeen
  {
  }
}
