/**
 The event hub fans frames out to subscribers. Every subscriber owns a bounded
 channel; a broadcast never blocks and drops the oldest queued frame of a
 subscriber that is full, while the subscriber's consumer may be taking frames
 at any moment.
 */
module StreamHub {
  import opened Wrappers
  import opened Sequences
  import opened Text

  const BUFFER: nat := 8

  datatype Payload = Bytes(data: string) | Rows(rows: seq<string>)

  datatype Frame = Frame(event: string, payload: Payload)

  /**
   A subscriber's channel and what it subscribed to. pushed and received are
   bookkeeping: everything ever pushed to it, and everything its consumer took.
   */
  datatype Channel = Channel(
    types: seq<string>, limit: int, queue: seq<Frame>, closed: bool,
    pushed: seq<Frame>, received: seq<Frame>)

  /** What the consumer has or will get: received frames, then queued ones. */
  function Outlook(c: Channel): seq<Frame> {
    c.received + c.queue
  }

  ghost predicate ChannelOk(c: Channel) {
    && |c.queue| <= BUFFER
    && Subsequence(Outlook(c), c.pushed)
    && (c.pushed != [] ==> Outlook(c) != [] && Outlook(c)[|Outlook(c)| - 1] == c.pushed[|c.pushed| - 1])
  }

  /** s without the element at j. */
  function Without<T>(s: seq<T>, j: nat): seq<T>
    requires j < |s|
  {
    s[..j] + s[j + 1..]
  }

  /**
   What one push may do while a consumer races it: the frame ends up last in
   line, and at most one frame is lost, only if the queue was full.
   */
  ghost predicate Pushed(a: Channel, b: Channel, frame: Frame) {
    && b.types == a.types && b.limit == a.limit && b.closed == a.closed
    && b.pushed == a.pushed + [frame]
    && a.received <= b.received
    && (|| Outlook(b) == Outlook(a) + [frame]
        || (|a.queue| == BUFFER && exists j :: Lost(a, b, j) && Outlook(b) == Without(Outlook(a), j) + [frame]))
  }

  /** The frame at j was queued, and it was the oldest: all before it was received in time. */
  ghost predicate Lost(a: Channel, b: Channel, j: nat) {
    |a.received| <= j < |Outlook(a)| && Outlook(a)[..j] <= b.received
  }

  lemma {:induction false} WithoutIsSubsequence<T>(s: seq<T>, j: nat)
    requires j < |s|
    ensures Subsequence(Without(s, j), s)
  {
    if j == 0 {
      SubsequenceReflexive(s[1..]);
      assert s == [s[0]] + s[1..];
      SubsequenceCons(s[1..], s[0], s[1..]);
      assert Without(s, 0) == s[1..];
    } else {
      WithoutIsSubsequence(s[1..], j - 1);
      assert Without(s, j) == [s[0]] + Without(s[1..], j - 1);
    }
  }

  lemma PushKeepsOrder(a: Channel, b: Channel, frame: Frame)
    requires ChannelOk(a) && Pushed(a, b, frame) && |b.queue| <= BUFFER
    ensures ChannelOk(b)
  {
    SubsequenceReflexive([frame]);
    if Outlook(b) == Outlook(a) + [frame] {
      SubsequenceConcat(Outlook(a), a.pushed, [frame], [frame]);
    } else {
      var j :| Lost(a, b, j) && Outlook(b) == Without(Outlook(a), j) + [frame];
      WithoutIsSubsequence(Outlook(a), j);
      SubsequenceTransitive(Without(Outlook(a), j), Outlook(a), a.pushed);
      SubsequenceConcat(Without(Outlook(a), j), a.pushed, [frame], [frame]);
    }
  }

  /** The consumer takes the first k queued frames. */
  function Consumed(c: Channel, k: nat): Channel
    requires k <= |c.queue|
  {
    c.(queue := c.queue[k..], received := c.received + c.queue[..k])
  }

  lemma ConsumingKeepsOutlook(c: Channel, k: nat)
    requires k <= |c.queue|
    ensures Outlook(Consumed(c, k)) == Outlook(c)
    ensures ChannelOk(c) ==> ChannelOk(Consumed(c, k))
  {
    assert Outlook(Consumed(c, k)) == Outlook(c);
  }

  /** b has everything a had at the moment its oldest queued frame was dropped, but that frame, and the new one. */
  lemma LosesTheOldest(a: Channel, dropping: Channel, b: Channel, frame: Frame)
    requires Outlook(dropping) == Outlook(a) && a.received <= dropping.received <= b.received && |dropping.queue| > 0
    requires Outlook(b) == dropping.received + dropping.queue[1..] + [frame]
    ensures exists j :: Lost(a, b, j) && Outlook(b) == Without(Outlook(a), j) + [frame]
  {
    var j := |dropping.received|;
    assert Without(Outlook(a), j) == dropping.received + dropping.queue[1..];
    assert Outlook(a)[..j] == dropping.received;
    assert Lost(a, b, j);
  }

  /** Queues a frame without blocking, dropping the oldest queued one when full; the consumer runs in between. */
  method PushLocked(c: Channel, frame: Frame) returns (r: Channel)
    requires |c.queue| <= BUFFER && !c.closed
    ensures Pushed(c, r, frame) && |r.queue| <= BUFFER
  {
    hide Without, Lost, Consumed;
    r := Race(c);
    if |r.queue| < BUFFER {
      r := r.(queue := r.queue + [frame], pushed := r.pushed + [frame]);
      return;
    }
    r := Race(r);
    ghost var dropping := r;
    if |r.queue| > 0 {
      r := r.(queue := r.queue[1..]);
    }
    r := Race(r);
    if |r.queue| < BUFFER {
      r := r.(queue := r.queue + [frame], pushed := r.pushed + [frame]);
    }
    if |dropping.queue| > 0 {
      LosesTheOldest(c, dropping, r, frame);
    }
  }

  /** The consumer takes any number of queued frames. */
  method Race(c: Channel) returns (r: Channel)
    ensures |r.queue| <= |c.queue| && r == Consumed(c, |c.queue| - |r.queue|)
    ensures Outlook(r) == Outlook(c) && c.received <= r.received
    ensures r == c.(queue := r.queue, received := r.received)
  {
    var k: nat :| k <= |c.queue|;
    r := Consumed(c, k);
  }

  // ---------------------------------------------------------------- processes

  /** The rows a subscriber with this limit wants; zero (or less) means all of them. */
  function Slice(entries: seq<string>, limit: int): (r: seq<string>)
    ensures r <= entries && |r| == if limit > 0 then Min(limit, |entries|) else |entries|
  {
    if limit > 0 && |entries| > limit then entries[..limit] else entries
  }

  /** The scan for one common limit: the limit found, and whether all agree. -1 stands for "none seen yet". */
  function Scan(limits: seq<int>): (int, bool) {
    if limits == [] then (-1, true)
    else
      var (common, shared) := Scan(limits[..|limits| - 1]);
      var last := limits[|limits| - 1];
      if !shared then (common, false)
      else if common == -1 then (last, true)
      else (common, last == common)
  }

  /** The rows each subscriber gets, in scan order. */
  function RowsFor(limits: seq<int>, entries: seq<string>, i: nat): seq<string>
    requires i < |limits|
  {
    var (common, shared) := Scan(limits);
    if shared then Slice(entries, common) else Slice(entries, limits[i])
  }

  lemma {:induction false} ScanFinds(limits: seq<int>)
    ensures var (common, shared) := Scan(limits);
            shared ==> forall i :: 0 <= i < |limits| ==> limits[i] == common || limits[i] == -1
    ensures var (common, shared) := Scan(limits);
            shared && common != -1 ==> common in limits
    ensures var (common, shared) := Scan(limits);
            shared && (-1 in limits) ==> limits[0] == -1
  {
    if limits != [] {
      var earlier, last := limits[..|limits| - 1], limits[|limits| - 1];
      ScanFinds(earlier);
      var (common, shared) := Scan(earlier);
      assert limits == earlier + [last];
      assert -1 in limits <==> -1 in earlier || last == -1;
      if earlier != [] {
        assert limits[0] == earlier[0];
      }
    }
  }

  /** A scan that takes a real limit for all of them after a subscriber that asked for -1. */
  predicate Misfires(limits: seq<int>, entries: seq<string>) {
    var (common, shared) := Scan(limits);
    limits != [] && shared && limits[0] == -1 && 0 < common < |entries|
  }

  /** The shared frame gives every subscriber its own slice, exactly when the scan does not misfire. */
  lemma SharedFrameIsEverySlice(limits: seq<int>, entries: seq<string>)
    ensures (forall i :: 0 <= i < |limits| ==> RowsFor(limits, entries, i) == Slice(entries, limits[i]))
       <==> !Misfires(limits, entries)
  {
    ScanFinds(limits);
    if Misfires(limits, entries) {
      var (common, shared) := Scan(limits);
      assert |RowsFor(limits, entries, 0)| == common;
      assert RowsFor(limits, entries, 0) != Slice(entries, limits[0]);
    }
  }

  /** No limit below zero, no misfire: the parser of the query only lets those through. */
  lemma NonNegativeLimitsNeverMisfire(limits: seq<int>, entries: seq<string>)
    requires forall l :: l in limits ==> l >= 0
    ensures !Misfires(limits, entries)
  {
    if limits != [] {
      assert limits[0] in limits;
    }
  }

  // -------------------------------------------------------------------- the hub

  /** Each target got its frame, and no other channel changed. */
  ghost predicate PushedTo(a: map<nat, Channel>, b: map<nat, Channel>, targets: set<nat>, frames: map<nat, Frame>) {
    && a.Keys == b.Keys && targets <= frames.Keys
    && forall s :: s in a ==> if s in targets then Pushed(a[s], b[s], frames[s]) else b[s] == a[s]
  }

  lemma PushOne(all: set<nat>, before: map<nat, Channel>, now: map<nat, Channel>, done: set<nat>, frames: map<nat, Frame>, s: nat, c: Channel)
    requires ChannelsOk(all, now) && PushedTo(before, now, done, frames) && SameSubscribers(before, now)
    requires s !in done && s in all && s in frames
    requires Pushed(now[s], c, frames[s]) && |c.queue| <= BUFFER
    ensures ChannelsOk(all, now[s := c]) && PushedTo(before, now[s := c], done + {s}, frames)
    ensures SameSubscribers(before, now[s := c])
  {
    hide Outlook, Without, Subsequence;
    PushKeepsOrder(now[s], c, frames[s]);
    ReplaceOne(all, now, s, c);
  }

  lemma ReplaceOne(all: set<nat>, channels: map<nat, Channel>, s: nat, c: Channel)
    requires ChannelsOk(all, channels) && s in channels
    requires ChannelOk(c) && c.types == channels[s].types && c.limit == channels[s].limit && c.closed == channels[s].closed
    ensures ChannelsOk(all, channels[s := c]) && SameSubscribers(channels, channels[s := c])
  {
    hide ChannelOk;
  }

  type Buckets = map<string, set<nat>>

  predicate Listed(subs: Buckets, t: string, s: nat) {
    t in subs && s in subs[t]
  }

  /** The registered subscribers that want a type. */
  function WantingOf(all: set<nat>, channels: map<nat, Channel>, t: string): set<nat> {
    set s | s in all && Wants(channels, t, s)
  }

  predicate Wants(channels: map<nat, Channel>, t: string, s: nat) {
    s in channels && t in channels[s].types
  }

  /** Every bucket is exactly the registered subscribers that want its type, and no bucket is empty. */
  ghost predicate BucketsOk(all: set<nat>, subs: Buckets, channels: map<nat, Channel>) {
    && (forall t :: t in subs ==> subs[t] != {})
    && (forall t, s :: Listed(subs, t, s) <==> s in all && Wants(channels, t, s))
  }

  /** A channel is closed exactly when its subscriber is not registered, and every channel keeps its order. */
  ghost predicate ChannelsOk(all: set<nat>, channels: map<nat, Channel>) {
    && all <= channels.Keys
    && (forall s :: s in channels ==> (channels[s].closed <==> s !in all) && ChannelOk(channels[s]))
  }

  /** The channels changed only in what went through them. */
  ghost predicate SameSubscribers(a: map<nat, Channel>, b: map<nat, Channel>) {
    && a.Keys == b.Keys
    && forall s :: s in a ==> a[s].types == b[s].types && a[s].limit == b[s].limit && a[s].closed == b[s].closed
  }

  lemma BucketsStay(all: set<nat>, subs: Buckets, a: map<nat, Channel>, b: map<nat, Channel>)
    requires BucketsOk(all, subs, a) && SameSubscribers(a, b)
    ensures BucketsOk(all, subs, b)
  {
    forall t, s
      ensures Wants(a, t, s) <==> Wants(b, t, s)
    {
    }
  }

  /** Adds one subscriber to one bucket. */
  function Added(subs: Buckets, t: string, s: nat): Buckets {
    subs[t := (if t in subs then subs[t] else {}) + {s}]
  }

  /** Removes one subscriber from one bucket, and the bucket with its last subscriber. */
  function Removed(subs: Buckets, t: string, s: nat): Buckets {
    if t !in subs then subs
    else if subs[t] - {s} == {} then subs - {t}
    else subs[t := subs[t] - {s}]
  }

  lemma AddedLists(subs: Buckets, t: string, s: nat)
    requires forall u :: u in subs ==> subs[u] != {}
    ensures forall u :: u in Added(subs, t, s) ==> Added(subs, t, s)[u] != {}
    ensures forall u, x :: Listed(Added(subs, t, s), u, x) <==> Listed(subs, u, x) || (u == t && x == s)
  {
  }

  lemma RemovedLists(subs: Buckets, t: string, s: nat)
    requires forall u :: u in subs ==> subs[u] != {}
    ensures forall u :: u in Removed(subs, t, s) ==> Removed(subs, t, s)[u] != {}
    ensures forall u, x :: Listed(Removed(subs, t, s), u, x) <==> Listed(subs, u, x) && !(u == t && x == s)
  {
    if t in subs && subs[t] - {s} == {} {
      assert subs[t] == (subs[t] - {s}) + (subs[t] * {s});
    }
  }

  class Hub {
    var all: set<nat>                 // the registered subscribers
    var subs: Buckets                 // by event type; an empty bucket is removed
    var channels: map<nat, Channel>   // of every subscriber there ever was

    ghost predicate Valid()
      reads this
    {
      BucketsOk(all, subs, channels) && ChannelsOk(all, channels)
    }

    constructor ()
      ensures Valid() && all == {} && channels == map[]
    {
      all, subs, channels := {}, map[], map[];
    }

    /** Registers a subscriber for the named types, each trimmed and taken once. */
    method Subscribe(raw: seq<string>, limit: int) returns (s: nat)
      requires Valid()
      modifies this
      ensures Valid() && s !in old(channels) && all == old(all) + {s}
      ensures channels == old(channels)[s := Channel(Dedup(Named(raw)), limit, [], false, [], [])]
      ensures forall t :: t in channels[s].types <==> t != "" && exists x :: x in raw && Trim(x) == t
    {
      NamedAre(raw);
      var names: seq<string> := [];
      var i := 0;
      while i < |raw|
        invariant 0 <= i <= |raw| && names == Named(raw[..i])
      {
        assert raw[..i + 1][..i] == raw[..i];
        var t := Trim(raw[i]);
        if t != "" {
          names := names + [t];
        }
        i := i + 1;
      }
      assert raw[..i] == raw;
      s := FreshId();
      Enlist(s, Dedup(names), limit);
    }

    method FreshId() returns (s: nat)
      ensures s !in channels
    {
      s := 0;
      var seen := channels.Keys;
      while seen != {}
        invariant seen <= channels.Keys
        invariant forall x :: x in channels && x !in seen ==> x < s
        decreases seen
      {
        var x :| x in seen;
        if x >= s {
          s := x + 1;
        }
        seen := seen - {x};
      }
    }

    method Enlist(s: nat, types: seq<string>, limit: int)
      requires Valid() && s !in channels
      modifies this
      ensures Valid() && all == old(all) + {s}
      ensures channels == old(channels)[s := Channel(types, limit, [], false, [], [])]
    {
      ghost var before := subs;
      all := all + {s};
      channels := channels[s := Channel(types, limit, [], false, [], [])];
      var k := 0;
      while k < |types|
        invariant 0 <= k <= |types|
        invariant forall t :: t in subs ==> subs[t] != {}
        invariant forall t, x :: Listed(subs, t, x) <==> Listed(before, t, x) || (t in types[..k] && x == s)
        modifies this`subs
      {
        assert types[..k + 1] == types[..k] + [types[k]];
        AddedLists(subs, types[k], s);
        subs := Added(subs, types[k], s);
        k := k + 1;
      }
      assert types[..k] == types;
    }

    /** Idempotent: a subscriber that is not registered any more is left alone. */
    method Unsubscribe(s: nat)
      requires Valid()
      modifies this
      ensures Valid() && all == old(all) - {s}
      ensures channels == if s in old(all) then old(channels)[s := old(channels)[s].(closed := true)] else old(channels)
    {
      if s !in all {
        return;
      }
      ghost var before := subs;
      var types := channels[s].types;
      var k := 0;
      while k < |types|
        invariant 0 <= k <= |types|
        invariant forall t :: t in subs ==> subs[t] != {}
        invariant forall t, x :: Listed(subs, t, x) <==> Listed(before, t, x) && !(t in types[..k] && x == s)
        modifies this`subs
      {
        assert types[..k + 1] == types[..k] + [types[k]];
        RemovedLists(subs, types[k], s);
        subs := Removed(subs, types[k], s);
        k := k + 1;
      }
      assert types[..k] == types;
      assert forall t :: Listed(before, t, s) ==> t in types;
      all := all - {s};
      channels := channels[s := channels[s].(closed := true)];
    }

    /** Pushes one frame to each of these registered subscribers, and to nobody else. */
    method PushAll(targets: set<nat>, frames: map<nat, Frame>)
      requires Valid() && targets <= all && targets <= frames.Keys
      modifies this`channels
      ensures Valid()
      ensures PushedTo(old(channels), channels, targets, frames)
    {
      hide Pushed, Subsequence, Outlook;
      ghost var before := channels;
      var left := targets;
      while left != {}
        invariant left <= targets
        invariant ChannelsOk(all, channels) && SameSubscribers(before, channels)
        invariant PushedTo(before, channels, targets - left, frames)
        decreases left
      {
        var s :| s in left;
        var c := PushLocked(channels[s], frames[s]);
        PushOne(all, before, channels, targets - left, frames, s, c);
        assert targets - left + {s} == targets - (left - {s});
        channels := channels[s := c];
        left := left - {s};
      }
      BucketsStay(all, subs, before, channels);
      assert targets - left == targets;
    }

    method Broadcast(event: string, data: string)
      requires Valid()
      modifies this`channels
      ensures Valid()
      ensures exists frames ::
                && PushedTo(old(channels), channels, WantingOf(all, old(channels), event), frames)
                && forall s :: s in frames ==> frames[s] == Frame(event, Bytes(data))
    {
      var bucket := if event in subs then subs[event] else {};
      var frames := map s | s in bucket :: Frame(event, Bytes(data));
      assert bucket == WantingOf(all, channels, event) by {
        assert forall s :: s in bucket <==> Listed(subs, event, s);
      }
      PushAll(bucket, frames);
    }

    /**
     Fans one process table out, each subscriber to its own limit, sharing the
     frame when the limits agree. A map is visited in some order, and the scan's
     verdict is that of the order it took; with no limit below zero the verdict is
     right in any order, and every subscriber gets the rows it asked for.
     */
    method BroadcastProcesses(entries: seq<string>)
      requires Valid()
      modifies this`channels
      ensures Valid() && channels.Keys == old(channels).Keys
      ensures exists order :: ServedInOrder(old(all), old(channels), channels, entries, order)
      ensures var targets := WantingOf(all, old(channels), "processes");
              (forall s :: s in targets ==> old(channels)[s].limit >= 0) ==>
                PushedTo(old(channels), channels, targets, OwnSlices(targets, old(channels), entries))
    {
      hide Subsequence, ChannelsOk, ChannelOk, Pushed, Slice, Scan;
      ghost var before := channels;
      if "processes" !in subs {
        assert forall s :: !Listed(subs, "processes", s);
        assert ServedInOrder(all, before, channels, entries, []);
        ServedOwnSlices(all, before, channels, entries, []);
        return;
      }
      var bucket := subs["processes"];
      assert forall s :: s in bucket <==> Listed(subs, "processes", s);
      var common, shared := ScanLimits(bucket);
      ghost var order :| Visits(order, bucket) && Scan(Limits(channels, order)) == (common, shared);
      var rows := map s | s in bucket :: Frame("processes", Rows(Slice(entries, if shared then common else channels[s].limit)));
      PushAll(bucket, rows);
      forall i | 0 <= i < |order|
        ensures Pushed(before[order[i]], channels[order[i]], Frame("processes", Rows(RowsFor(Limits(before, order), entries, i))))
      {
        assert order[i] in bucket;
        assert rows[order[i]] == Frame("processes", Rows(RowsFor(Limits(before, order), entries, i)));
      }
      assert ServedInOrder(all, before, channels, entries, order);
      ServedOwnSlices(all, before, channels, entries, order);
    }

    /** Looks for a common limit, visiting the subscribers in any order and stopping at the first that differs. */
    method ScanLimits(bucket: set<nat>) returns (common: int, shared: bool)
      requires bucket <= channels.Keys
      ensures exists order :: Visits(order, bucket) && Scan(Limits(channels, order)) == (common, shared)
    {
      common, shared := -1, true;
      ghost var order: seq<nat> := [];
      var left := bucket;
      while left != {} && shared
        invariant left <= bucket && (forall s :: s in bucket <==> s in order || s in left)
        invariant NoDuplicates(order) && forall s :: s in order ==> s !in left
        invariant Scan(Limits(channels, order)) == (common, shared)
        decreases left
      {
        var s :| s in left;
        left := left - {s};
        LimitsExtend(channels, order, s);
        if common == -1 {
          common := channels[s].limit;
        } else if channels[s].limit != common {
          shared := false;
        }
        order := order + [s];
      }
      order := ScanRest(channels, order, left, bucket);
      assert Visits(order, bucket);
    }

    /** The consumer of one subscriber takes k frames. */
    method Receive(s: nat, k: nat)
      requires Valid() && s in channels && k <= |channels[s].queue|
      modifies this`channels
      ensures Valid() && channels == old(channels)[s := Consumed(old(channels)[s], k)]
    {
      ConsumedOk(all, channels, s, k);
      ghost var before := channels;
      channels := channels[s := Consumed(channels[s], k)];
      BucketsStay(all, subs, before, channels);
    }
  }

  lemma ConsumedOk(all: set<nat>, channels: map<nat, Channel>, s: nat, k: nat)
    requires ChannelsOk(all, channels) && s in channels && k <= |channels[s].queue|
    ensures ChannelsOk(all, channels[s := Consumed(channels[s], k)])
    ensures SameSubscribers(channels, channels[s := Consumed(channels[s], k)])
  {
    hide Subsequence, Outlook;
    ConsumingKeepsOutlook(channels[s], k);
    ReplaceOne(all, channels, s, Consumed(channels[s], k));
  }

  /** order visits the subscribers of a bucket, each once. */
  ghost predicate Visits(order: seq<nat>, bucket: set<nat>) {
    NoDuplicates(order) && forall s :: s in order <==> s in bucket
  }

  /** Exactly the process subscribers, visited in this order, got the rows the scan decides for them. */
  ghost predicate ServedInOrder(all: set<nat>, before: map<nat, Channel>, now: map<nat, Channel>, entries: seq<string>, order: seq<nat>) {
    && Visits(order, WantingOf(all, before, "processes")) && now.Keys == before.Keys
    && (forall i :: 0 <= i < |order| ==>
          order[i] in before && Pushed(before[order[i]], now[order[i]],
                                       Frame("processes", Rows(RowsFor(Limits(before, order), entries, i)))))
    && forall s :: s in now && s !in order ==> now[s] == before[s]
  }

  /** The frame each target asked for. */
  function OwnSlices(targets: set<nat>, channels: map<nat, Channel>, entries: seq<string>): map<nat, Frame> {
    map s | s in targets && s in channels :: Frame("processes", Rows(Slice(entries, channels[s].limit)))
  }

  /** When no limit is below zero, the verdict of the scan serves each subscriber its own slice, whatever the order. */
  lemma ServedOwnSlices(all: set<nat>, before: map<nat, Channel>, now: map<nat, Channel>, entries: seq<string>, order: seq<nat>)
    requires ServedInOrder(all, before, now, entries, order)
    ensures var targets := WantingOf(all, before, "processes");
            (forall s :: s in targets ==> before[s].limit >= 0) ==>
              PushedTo(before, now, targets, OwnSlices(targets, before, entries))
  {
    var limits := Limits(before, order);
    var targets := WantingOf(all, before, "processes");
    if forall s :: s in targets ==> before[s].limit >= 0 {
      forall l | l in limits
        ensures l >= 0
      {
        var i :| 0 <= i < |limits| && limits[i] == l;
        assert order[i] in targets;
      }
      NonNegativeLimitsNeverMisfire(limits, entries);
      SharedFrameIsEverySlice(limits, entries);
      var frames := OwnSlices(targets, before, entries);
      forall s | s in order
        ensures s in frames && Pushed(before[s], now[s], frames[s])
      {
        var i :| 0 <= i < |order| && order[i] == s;
        assert RowsFor(limits, entries, i) == Slice(entries, before[s].limit);
      }
    }
  }

  /** The limits of the subscribers, in the order they are visited. */
  function Limits(channels: map<nat, Channel>, order: seq<nat>): seq<int> {
    seq(|order|, i requires 0 <= i < |order| => if order[i] in channels then channels[order[i]].limit else 0)
  }

  lemma LimitsExtend(channels: map<nat, Channel>, order: seq<nat>, s: nat)
    requires s in channels
    ensures Limits(channels, order + [s])[..|order|] == Limits(channels, order)
    ensures Limits(channels, order + [s])[|order|] == channels[s].limit
  {
  }

  /** Once the scan broke off, the subscribers it did not visit follow in any order without changing its result. */
  lemma ScanRest(channels: map<nat, Channel>, order: seq<nat>, left: set<nat>, bucket: set<nat>) returns (full: seq<nat>)
    requires bucket <= channels.Keys && left <= bucket
    requires forall s :: s in bucket <==> s in order || s in left
    requires NoDuplicates(order) && forall s :: s in order ==> s !in left
    requires left != {} ==> !Scan(Limits(channels, order)).1
    ensures NoDuplicates(full) && forall s :: s in full <==> s in bucket
    ensures Scan(Limits(channels, full)) == Scan(Limits(channels, order))
    decreases left
  {
    full := order;
    if left != {} {
      var s :| s in left;
      LimitsExtend(channels, order, s);
      full := ScanRest(channels, order + [s], left - {s}, bucket);
    }
  }

  /** The type names of a subscription: trimmed, without the empty ones. */
  function Named(raw: seq<string>): seq<string> {
    if raw == [] then []
    else
      var t := Trim(raw[|raw| - 1]);
      Named(raw[..|raw| - 1]) + if t == "" then [] else [t]
  }

  lemma {:induction false} NamedAre(raw: seq<string>)
    ensures forall t :: t in Named(raw) <==> t != "" && exists x :: x in raw && Trim(x) == t
  {
    hide Trim;
    if raw != [] {
      var init, last := raw[..|raw| - 1], raw[|raw| - 1];
      NamedAre(init);
      assert raw == init + [last];
      forall t
        ensures t in Named(raw) <==> t != "" && exists x :: x in raw && Trim(x) == t
      {
        assert t in Named(raw) <==> t in Named(init) || (t == Trim(last) && t != "");
        if Trim(last) == t {
          assert last in raw;
        }
      }
    }
  }

  /**
   What the consumer received and will receive is an in-order subsequence of what
   was pushed, and the newest pushed frame is always its last one.
   */
  lemma ChannelGuarantee(all: set<nat>, channels: map<nat, Channel>, s: nat)
    requires ChannelsOk(all, channels) && s in channels
    ensures Subsequence(channels[s].received + channels[s].queue, channels[s].pushed)
    ensures channels[s].pushed != [] ==>
              channels[s].pushed[|channels[s].pushed| - 1] in channels[s].received + channels[s].queue
  {
    var c := channels[s];
    if c.pushed != [] {
      assert Outlook(c)[|Outlook(c)| - 1] == c.pushed[|c.pushed| - 1];
    }
  }
}
