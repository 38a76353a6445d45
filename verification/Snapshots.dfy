/**
 Container status snapshots. The daemon reduces what its stores listed to the
 managed containers plus the runtimes it could enumerate in full; the cloud
 upserts the containers and retires every row of a covered runtime the batch
 does not mention. What could not be enumerated keeps its last known state.
 */
module Snapshots {
  import opened Wrappers
  import opened Sequences
  import opened Text

  const MAX_CONTAINERS := 500
  const MAX_RUNTIMES := 8
  const MAX_RUNTIME_NAME := 64
  const MAX_ID := 128
  const MAX_NAME := 255

  datatype Entry = Entry(id: string, name: string, image: string, state: string, status: string, project: string)

  /** One store's listing; a store that did not answer is unavailable or carries an error. */
  datatype Group = Group(runtime: string, available: bool, failed: bool, containers: seq<Entry>) {
    predicate Answered() {
      available && !failed
    }
  }

  /** The managed allowlist of the daemon's configuration. */
  datatype Managed = Managed(containers: seq<string>, composes: seq<string>)

  /** One reported container, tagged with its runtime. */
  datatype Report = Report(runtime: string, entry: Entry)

  predicate Matches(m: Managed, e: Entry) {
    || (m.containers == [] && m.composes == [])
    || (exists c :: c in m.containers && Trim(c) != "" && (Trim(c) == e.name || HasPrefix(e.id, Trim(c))))
    || (exists c :: c in m.composes && Trim(c) != "" && Trim(c) == e.project)
  }

  // ---------------------------------------------------------- the daemon's side

  /** Whether a container belongs to the allowlist: by its exact name, a prefix of its id, or its project. */
  method MatchManagedContainer(e: Entry, m: Managed) returns (r: bool)
    ensures r == Matches(m, e)
    ensures r <==> || (|m.containers| == 0 && |m.composes| == 0)
                   || (exists c :: c in m.containers && Trim(c) != "" && (e.name == Trim(c) || Trim(c) <= e.id))
                   || (exists c :: c in m.composes && Trim(c) != "" && e.project == Trim(c))
  {
    hide Trim;
    if |m.containers| == 0 && |m.composes| == 0 {
      return true;
    }
    var i := 0;
    while i < |m.containers|
      invariant 0 <= i <= |m.containers|
      invariant forall j :: 0 <= j < i ==> Trim(m.containers[j]) == "" || !(e.name == Trim(m.containers[j]) || Trim(m.containers[j]) <= e.id)
    {
      var c := Trim(m.containers[i]);
      assert m.containers[i] in m.containers;
      if c != "" && (c == e.name || HasPrefix(e.id, c)) {
        return true;
      }
      i := i + 1;
    }
    i := 0;
    while i < |m.composes|
      invariant 0 <= i <= |m.composes|
      invariant forall j :: 0 <= j < i ==> Trim(m.composes[j]) == "" || e.project != Trim(m.composes[j])
    {
      var c := Trim(m.composes[i]);
      assert m.composes[i] in m.composes;
      if c != "" && c == e.project {
        return true;
      }
      i := i + 1;
    }
    return false;
  }

  function ManagedOf(g: Group, m: Managed, n: nat): seq<Report>
    requires n <= |g.containers|
  {
    if n == 0 then []
    else
      var earlier := ManagedOf(g, m, n - 1);
      var e := g.containers[n - 1];
      if Matches(m, e) then earlier + [Report(g.runtime, e)] else earlier
  }

  /** The managed containers of every store that answered, in listing order. */
  function BatchEntries(groups: seq<Group>, m: Managed): seq<Report> {
    if groups == [] then []
    else
      var g := groups[|groups| - 1];
      BatchEntries(groups[..|groups| - 1], m) + if g.Answered() then ManagedOf(g, m, |g.containers|) else []
  }

  /** A runtime is covered when a store of it is listed and all its stores answered. */
  predicate Covers(groups: seq<Group>, runtime: string) {
    && (exists g :: g in groups && g.runtime == runtime)
    && (forall g :: g in groups && g.runtime == runtime ==> g.Answered())
  }

  predicate HasRuntime(groups: seq<Group>, runtime: string) {
    exists g :: g in groups && g.runtime == runtime
  }

  predicate Misses(groups: seq<Group>, runtime: string) {
    exists g :: g in groups && g.runtime == runtime && !g.Answered()
  }

  lemma OneGroupMore(groups: seq<Group>, m: Managed, i: nat, next: nat)
    requires next == i + 1 <= |groups|
    ensures BatchEntries(groups[..next], m)
            == BatchEntries(groups[..i], m) + if groups[i].Answered() then ManagedOf(groups[i], m, |groups[i].containers|) else []
    ensures forall r :: HasRuntime(groups[..next], r) <==> HasRuntime(groups[..i], r) || groups[i].runtime == r
    ensures forall r :: Misses(groups[..next], r) <==> Misses(groups[..i], r) || (groups[i].runtime == r && !groups[i].Answered())
  {
    assert groups[..next][..i] == groups[..i] && groups[..next] == groups[..i] + [groups[i]];
  }

  method ContainerStatusBatch(groups: seq<Group>, m: Managed) returns (entries: seq<Report>, covered: seq<string>)
    ensures entries == BatchEntries(groups, m)
    ensures NoDuplicates(covered)
    ensures forall r :: r in covered <==> Covers(groups, r)
  {
    hide Matches;
    entries, covered := [], [];
    var order: seq<string> := [];
    var partial: set<string> := {};
    var i := 0;
    while i < |groups|
      invariant 0 <= i <= |groups|
      invariant entries == BatchEntries(groups[..i], m)
      invariant NoDuplicates(order)
      invariant forall r :: r in order <==> HasRuntime(groups[..i], r)
      invariant forall r :: r in partial <==> Misses(groups[..i], r)
    {
      var g, next := groups[i], i + 1;
      OneGroupMore(groups, m, i, next);
      if g.runtime !in order {
        order := order + [g.runtime];
      }
      if !g.available || g.failed {
        partial := partial + {g.runtime};
      } else {
        var j := 0;
        ghost var before := entries;
        while j < |g.containers|
          invariant 0 <= j <= |g.containers|
          invariant entries == before + ManagedOf(g, m, j)
        {
          var managed := MatchManagedContainer(g.containers[j], m);
          if managed {
            entries := entries + [Report(g.runtime, g.containers[j])];
          }
          j := j + 1;
        }
      }
      i := next;
    }
    assert groups[..i] == groups;
    assert forall r :: Covers(groups, r) <==> HasRuntime(groups, r) && !Misses(groups, r);
    var k := 0;
    while k < |order|
      invariant 0 <= k <= |order|
      invariant NoDuplicates(covered)
      invariant forall r :: r in covered <==> r in order[..k] && r !in partial
    {
      assert order[..k + 1] == order[..k] + [order[k]];
      if order[k] !in partial {
        covered := covered + [order[k]];
      }
      k := k + 1;
    }
    assert order[..k] == order;
  }

  /** A reported container is a managed container of a store that answered, and the other way round. */
  lemma {:induction false} BatchEntriesAre(groups: seq<Group>, m: Managed, r: Report)
    ensures r in BatchEntries(groups, m) <==>
            exists g :: g in groups && g.Answered() && g.runtime == r.runtime && r.entry in g.containers && Matches(m, r.entry)
  {
    if groups != [] {
      var last := groups[|groups| - 1];
      assert groups == groups[..|groups| - 1] + [last];
      BatchEntriesAre(groups[..|groups| - 1], m, r);
      ManagedOfIs(last, m, |last.containers|, r);
      assert last.containers[..|last.containers|] == last.containers;
    }
  }

  lemma {:induction false} ManagedOfIs(g: Group, m: Managed, n: nat, r: Report)
    requires n <= |g.containers|
    ensures r in ManagedOf(g, m, n) <==> g.runtime == r.runtime && r.entry in g.containers[..n] && Matches(m, r.entry)
  {
    hide Matches;
    if n > 0 {
      ManagedOfIs(g, m, n - 1, r);
      assert g.containers[..n] == g.containers[..n - 1] + [g.containers[n - 1]];
    }
  }

  // ----------------------------------------------------------- the cloud's side

  type Key = (string, string)  // daemon, container

  datatype Row = Row(
    runtime: string, workspace: string, name: string, image: string, state: string, status: string, project: string,
    firstSeen: int, lastSeen: int)

  type Table = map<Key, Row>

  function ContainerId(r: Report): string {
    Trim(r.entry.id)
  }

  function Clip(name: string): string {
    if |name| > MAX_NAME then name[..MAX_NAME] else name
  }

  function FreshRow(workspace: string, r: Report, now: int): Row {
    var e := r.entry;
    Row(Trim(r.runtime), workspace, Clip(Trim(e.name)), e.image, e.state, e.status, e.project, now, now)
  }

  /** An upsert on an existing row leaves its workspace and its first-seen time. */
  function Upserted(row: Row, workspace: string, r: Report, now: int): Row {
    FreshRow(workspace, r, now).(workspace := row.workspace, firstSeen := row.firstSeen)
  }

  /** The report of a container id, if the batch has one. */
  function Find(batch: seq<Report>, id: string): (r: Option<Report>)
    ensures r.Some? <==> exists b :: b in batch && ContainerId(b) == id
    ensures r.Some? ==> r.value in batch && ContainerId(r.value) == id
  {
    if batch == [] then None
    else if ContainerId(batch[0]) == id then Some(batch[0])
    else Find(batch[1..], id)
  }

  function BatchKeys(daemon: string, batch: seq<Report>): (r: set<Key>)
    ensures forall k: Key :: k in r <==> k.0 == daemon && Find(batch, k.1).Some?
  {
    set b | b in batch :: (daemon, ContainerId(b))
  }

  function Upsert(t: Table, daemon: string, workspace: string, batch: seq<Report>, now: int): Table {
    map k | k in t.Keys + BatchKeys(daemon, batch) ::
      if k.0 == daemon && Find(batch, k.1).Some? then
        var r := Find(batch, k.1).value;
        if k in t then Upserted(t[k], workspace, r, now) else FreshRow(workspace, r, now)
      else t[k]
  }

  /** A row the reconcile retires: this daemon's, of a covered runtime (or untagged), and not mentioned. */
  predicate Gone(k: Key, row: Row, daemon: string, batch: seq<Report>, covered: seq<string>) {
    && covered != [] && k.0 == daemon
    && (row.runtime in covered || row.runtime == "")
    && Find(batch, k.1).None?
  }

  function Reconcile(t: Table, daemon: string, workspace: string, batch: seq<Report>, covered: seq<string>, now: int): Table {
    var up := Upsert(t, daemon, workspace, batch, now);
    map k | k in up && !Gone(k, up[k], daemon, batch, covered) :: up[k]
  }

  predicate ValidId(r: Report) {
    0 < |ContainerId(r)| <= MAX_ID
  }

  predicate ValidRuntime(name: string) {
    0 < |Trim(name)| <= MAX_RUNTIME_NAME
  }

  ghost predicate DistinctIds(batch: seq<Report>) {
    forall i, j :: 0 <= i < j < |batch| ==> ContainerId(batch[i]) != ContainerId(batch[j])
  }

  /** A batch the cloud takes: bounded, well-named, claiming something, and naming no container twice. */
  ghost predicate Acceptable(batch: seq<Report>, runtimes: seq<string>) {
    && |batch| <= MAX_CONTAINERS && |runtimes| <= MAX_RUNTIMES
    && (batch != [] || runtimes != [])
    && (forall r :: r in runtimes ==> ValidRuntime(r))
    && (forall r :: r in batch ==> ValidId(r))
    && DistinctIds(batch)
  }

  /** names is what the runtimes are called once trimmed. */
  ghost predicate TrimmedNames(runtimes: seq<string>, names: seq<string>) {
    && |names| == |runtimes|
    && forall i :: 0 <= i < |runtimes| ==> names[i] == Trim(runtimes[i])
  }

  /** The runtimes a batch speaks for: trimmed, each once, or nothing when one of them is unusable. */
  method NormalizeCovered(runtimes: seq<string>) returns (r: Option<seq<string>>)
    ensures r.Some? <==> |runtimes| <= MAX_RUNTIMES && forall x :: x in runtimes ==> ValidRuntime(x)
    ensures r.Some? ==> exists names :: TrimmedNames(runtimes, names) && r.value == Dedup(names)
  {
    if |runtimes| > MAX_RUNTIMES {
      return None;
    }
    var names: seq<string> := [];
    var i := 0;
    while i < |runtimes|
      invariant 0 <= i <= |runtimes| && |names| == i
      invariant forall j :: 0 <= j < i ==> names[j] == Trim(runtimes[j]) && ValidRuntime(runtimes[j])
    {
      var name := Trim(runtimes[i]);
      if name == "" || |name| > MAX_RUNTIME_NAME {
        assert !ValidRuntime(runtimes[i]) && runtimes[i] in runtimes;
        return None;
      }
      names := names + [name];
      i := i + 1;
    }
    assert TrimmedNames(runtimes, names);
    r := Some(Dedup(names));
  }

  /** What an accepted batch makes of the table, told from the batch alone. */
  ghost predicate Ingested(before: Table, after: Table, daemon: string, workspace: string, batch: seq<Report>, runtimes: seq<string>, now: int) {
    exists names ::
      && TrimmedNames(runtimes, names)
      && after == Reconcile(before, daemon, workspace, batch, Dedup(names), now)
  }

  /** The row says of a container what an entry says: trimmed and clipped names, everything else as it is. */
  ghost predicate Shows(row: Row, runtime: string, e: Entry, now: int) {
    && row.runtime == Trim(runtime)
    && row.name <= Trim(e.name) && |row.name| == Min(|Trim(e.name)|, 255)
    && row.image == e.image && row.state == e.state && row.status == e.status && row.project == e.project
    && row.lastSeen == now
  }

  /**
   The table after an accepted batch, column by column: the reported rows, those
   that go, and those that stay as they are.
   */
  ghost predicate IngestedRows(before: Table, after: Table, daemon: string, workspace: string, batch: seq<Report>, runtimes: seq<string>, now: int) {
    && (forall r :: r in batch ==>
          var k := (daemon, Trim(r.entry.id));
          && k in after && Shows(after[k], r.runtime, r.entry, now)
          && after[k].workspace == (if k in before then before[k].workspace else workspace)
          && after[k].firstSeen == (if k in before then before[k].firstSeen else now))
    && forall k :: (k in before || k in after) && !Reports(batch, daemon, k) ==>
         && k in before
         && (k !in after <==> && k.0 == daemon && runtimes != []
                              && (before[k].runtime == "" || exists x :: x in runtimes && Trim(x) == before[k].runtime))
         && (k in after ==> after[k] == before[k])
  }

  ghost predicate Reports(batch: seq<Report>, daemon: string, k: Key) {
    k.0 == daemon && exists r :: r in batch && Trim(r.entry.id) == k.1
  }

  lemma ReportedRow(t: Table, daemon: string, workspace: string, batch: seq<Report>, covered: seq<string>, now: int, r: Report)
    requires DistinctIds(batch) && r in batch
    ensures var k, after := (daemon, Trim(r.entry.id)), Reconcile(t, daemon, workspace, batch, covered, now);
            && k in after && Shows(after[k], r.runtime, r.entry, now)
            && after[k].workspace == (if k in t then t[k].workspace else workspace)
            && after[k].firstSeen == (if k in t then t[k].firstSeen else now)
  {
    FindIsUnique(batch, r);
    var k := (daemon, Trim(r.entry.id));
    assert k in BatchKeys(daemon, batch);
  }

  lemma UnreportedRow(t: Table, daemon: string, workspace: string, batch: seq<Report>, covered: seq<string>, now: int, k: Key)
    requires !Reports(batch, daemon, k)
    ensures var after := Reconcile(t, daemon, workspace, batch, covered, now);
            && (k in after ==> k in t && after[k] == t[k])
            && (k in t ==> (k !in after <==> k.0 == daemon && covered != [] && (t[k].runtime == "" || t[k].runtime in covered)))
  {
  }

  lemma IngestedAre(before: Table, after: Table, daemon: string, workspace: string, batch: seq<Report>, runtimes: seq<string>, now: int)
    requires DistinctIds(batch) && Ingested(before, after, daemon, workspace, batch, runtimes, now)
    ensures IngestedRows(before, after, daemon, workspace, batch, runtimes, now)
  {
    hide Reconcile, Trim, DistinctIds, Shows, Reports;
    var names :| TrimmedNames(runtimes, names) && after == Reconcile(before, daemon, workspace, batch, Dedup(names), now);
    forall r | r in batch {
      ReportedRow(before, daemon, workspace, batch, Dedup(names), now, r);
    }
    forall k: Key | (k in before || k in after) && !Reports(batch, daemon, k)
      ensures && k in before
              && (k !in after <==> && k.0 == daemon && runtimes != []
                                   && (before[k].runtime == "" || exists x :: x in runtimes && Trim(x) == before[k].runtime))
              && (k in after ==> after[k] == before[k])
    {
      UnreportedRow(before, daemon, workspace, batch, Dedup(names), now, k);
      TrimmedAre(runtimes, names, before[k].runtime);
    }
  }

  lemma TrimmedAre(runtimes: seq<string>, names: seq<string>, x: string)
    requires TrimmedNames(runtimes, names)
    ensures x in names <==> exists y :: y in runtimes && Trim(y) == x
  {
    if x in names {
      var i :| 0 <= i < |names| && names[i] == x;
      assert runtimes[i] in runtimes;
    }
    if y :| y in runtimes && Trim(y) == x {
      var i :| 0 <= i < |runtimes| && runtimes[i] == y;
      assert names[i] == x;
    }
  }

  /** Every id is usable, and no container is named twice: one upsert statement cannot touch a row twice. */
  method ValidateBatch(batch: seq<Report>) returns (ok: bool)
    ensures ok <==> (forall r :: r in batch ==> ValidId(r)) && DistinctIds(batch)
  {
    var ids: seq<string> := [];
    var i := 0;
    while i < |batch|
      invariant 0 <= i <= |batch| && |ids| == i
      invariant forall j :: 0 <= j < i ==> ids[j] == ContainerId(batch[j]) && ValidId(batch[j])
    {
      var id := ContainerId(batch[i]);
      if id == "" || |id| > MAX_ID {
        assert batch[i] in batch && !ValidId(batch[i]);
        return false;
      }
      ids := ids + [id];
      i := i + 1;
    }
    return forall j, k :: 0 <= j < k < |ids| ==> ids[j] != ids[k];
  }

  class CloudContainers {
    var rows: Table

    constructor ()
      ensures rows == map[]
    {
      rows := map[];
    }

    method IngestContainerStatus(daemon: string, workspace: string, batch: seq<Report>, runtimes: seq<string>, now: int) returns (ok: bool)
      modifies this
      ensures ok <==> Acceptable(batch, runtimes)
      ensures ok ==> Ingested(old(rows), rows, daemon, workspace, batch, runtimes, now)
      ensures ok ==> IngestedRows(old(rows), rows, daemon, workspace, batch, runtimes, now)
      ensures !ok ==> rows == old(rows)
    {
      if |batch| > MAX_CONTAINERS {
        return false;
      }
      var normalized := NormalizeCovered(runtimes);
      if normalized.None? {
        return false;
      }
      var covered := normalized.value;
      if |batch| == 0 && |covered| == 0 {
        return false;
      }
      var valid := ValidateBatch(batch);
      if !valid {
        return false;
      }
      rows := Reconcile(rows, daemon, workspace, batch, covered, now);
      IngestedAre(old(rows), rows, daemon, workspace, batch, runtimes, now);
      return true;
    }
  }

  // ---------------------------------------------------------------- guarantees

  /** The rows of one daemon and runtime. */
  function IdsOf(t: Table, daemon: string, runtime: string): set<string> {
    set k | k in t && k.0 == daemon && t[k].runtime == runtime :: k.1
  }

  function AllIdsOf(t: Table, daemon: string): set<string> {
    set k | k in t && k.0 == daemon :: k.1
  }

  function ReportedIds(batch: seq<Report>): set<string> {
    set r | r in batch :: ContainerId(r)
  }

  function ReportedIdsOf(batch: seq<Report>, runtime: string): set<string> {
    set r | r in batch && Trim(r.runtime) == runtime :: ContainerId(r)
  }

  lemma FindIsUnique(batch: seq<Report>, r: Report)
    requires DistinctIds(batch) && r in batch
    ensures Find(batch, ContainerId(r)) == Some(r)
  {
    var i :| 0 <= i < |batch| && batch[i] == r;
    var found := Find(batch, ContainerId(r)).value;
    var j :| 0 <= j < |batch| && batch[j] == found;
    assert i == j;
  }

  lemma CoveredRowIsReported(t: Table, daemon: string, workspace: string, batch: seq<Report>, covered: seq<string>, now: int, k: Key)
    requires k.0 == daemon
    ensures var after := Reconcile(t, daemon, workspace, batch, covered, now);
            && (k in after && after[k].runtime in covered ==> Find(batch, k.1).Some?)
            && (Find(batch, k.1).Some? ==> k in after && after[k].runtime == Trim(Find(batch, k.1).value.runtime))
  {
    assert k in BatchKeys(daemon, batch) <==> Find(batch, k.1).Some?;
  }

  /** The rows of a covered runtime are exactly the reported containers of that runtime. */
  lemma CoveredRuntimeIsExact(t: Table, daemon: string, workspace: string, batch: seq<Report>, covered: seq<string>, now: int, runtime: string, id: string)
    requires DistinctIds(batch) && runtime in covered
    ensures id in IdsOf(Reconcile(t, daemon, workspace, batch, covered, now), daemon, runtime)
       <==> id in ReportedIdsOf(batch, runtime)
  {
    var after := Reconcile(t, daemon, workspace, batch, covered, now);
    var k := (daemon, id);
    CoveredRowIsReported(t, daemon, workspace, batch, covered, now, k);
    assert id in IdsOf(after, daemon, runtime) <==> k in after && after[k].runtime == runtime;
    if id in ReportedIdsOf(batch, runtime) {
      var r :| r in batch && Trim(r.runtime) == runtime && ContainerId(r) == id;
      FindIsUnique(batch, r);
    }
  }

  /** What a reconcile leaves alone, and what it keeps of the rows it touches. */
  lemma ReconcileKeeps(t: Table, daemon: string, workspace: string, batch: seq<Report>, covered: seq<string>, now: int, k: Key)
    ensures var after := Reconcile(t, daemon, workspace, batch, covered, now);
            && (k.0 != daemon ==> (k in after <==> k in t) && (k in t ==> after[k] == t[k]))
            && (k in t && k in after ==> after[k].firstSeen == t[k].firstSeen)
            && (k !in t && k in after ==> after[k].firstSeen == now)
            && (k in t && t[k].runtime != "" && t[k].runtime !in covered ==> k in after)
            && (k in t && k in after && Find(batch, k.1).None? ==> after[k] == t[k])
  {
  }

  /**
   The daemon's rows become exactly the reported containers, if and only if every
   row it had was reported again, untagged, or of a covered runtime. A runtime
   removed from the host is listed no more, so it is not covered, and its rows stay.
   */
  lemma FullCoverage(t: Table, daemon: string, workspace: string, batch: seq<Report>, covered: seq<string>, now: int)
    requires covered != []
    ensures AllIdsOf(Reconcile(t, daemon, workspace, batch, covered, now), daemon) == ReportedIds(batch)
       <==> forall k :: k in t && k.0 == daemon && Find(batch, k.1).None? ==>
              t[k].runtime == "" || t[k].runtime in covered
  {
    hide Find, ContainerId, Upserted, FreshRow;
    var up := Upsert(t, daemon, workspace, batch, now);
    var after := Reconcile(t, daemon, workspace, batch, covered, now);
    if forall k :: k in t && k.0 == daemon && Find(batch, k.1).None? ==> t[k].runtime == "" || t[k].runtime in covered {
      forall id
        ensures id in AllIdsOf(after, daemon) <==> id in ReportedIds(batch)
      {
        assert (daemon, id) in after <==> Find(batch, id).Some?;
        assert id in AllIdsOf(after, daemon) <==> (daemon, id) in after;
      }
    } else {
      var k :| k in t && k.0 == daemon && Find(batch, k.1).None? && t[k].runtime != "" && t[k].runtime !in covered;
      assert k in after && k.1 in AllIdsOf(after, daemon) && k.1 !in ReportedIds(batch);
    }
  }

  // ------------------------------------------------------- snapshots in sequence

  /** One tick of one daemon: what its stores listed, under its allowlist. */
  datatype Snapshot = Snapshot(daemon: string, workspace: string, groups: seq<Group>, managed: Managed, now: int)

  /** The daemon sends nothing when it covers nothing, and the cloud may refuse the batch. */
  ghost predicate Sent(s: Snapshot) {
    && (exists r :: Covers(s.groups, r))
    && exists covered :: CoverageOf(s, covered) && Acceptable(BatchEntries(s.groups, s.managed), covered)
  }

  ghost predicate CoverageOf(s: Snapshot, covered: seq<string>) {
    NoDuplicates(covered) && forall r :: r in covered <==> Covers(s.groups, r)
  }

  /** The batch arrived, and the cloud took it in. */
  ghost predicate Delivered(before: Table, s: Snapshot, after: Table) {
    && Sent(s)
    && exists covered ::
         && CoverageOf(s, covered) && Acceptable(BatchEntries(s.groups, s.managed), covered)
         && Ingested(before, after, s.daemon, s.workspace, BatchEntries(s.groups, s.managed), covered, s.now)
  }

  /** Nothing is sent, the batch gets lost, or it is delivered. */
  ghost predicate Ticks(before: Table, s: Snapshot, after: Table) {
    after == before || Delivered(before, s, after)
  }

  /** tables[i] is the table after the first i snapshots. */
  ghost predicate History(tables: seq<Table>, snapshots: seq<Snapshot>) {
    && |tables| == |snapshots| + 1
    && forall i :: 0 <= i < |snapshots| ==> Ticks(tables[i], snapshots[i], tables[i + 1])
  }

  /** The managed containers of one runtime the snapshot lists, over all its stores that answered. */
  ghost function HostIdsOf(s: Snapshot, runtime: string): iset<string> {
    iset g, e | g in s.groups && g.Answered() && Trim(g.runtime) == runtime && e in g.containers && Matches(s.managed, e)
      :: Trim(e.id)
  }

  /** Everything managed that the snapshot lists. */
  ghost function HostIds(s: Snapshot): iset<string> {
    iset g, e | g in s.groups && g.Answered() && e in g.containers && Matches(s.managed, e) :: Trim(e.id)
  }

  lemma HostIdsAreReported(s: Snapshot, id: string, runtime: string)
    ensures id in HostIds(s) <==> id in ReportedIds(BatchEntries(s.groups, s.managed))
    ensures id in HostIdsOf(s, runtime) <==> id in ReportedIdsOf(BatchEntries(s.groups, s.managed), runtime)
  {
    var batch := BatchEntries(s.groups, s.managed);
    forall g, e | g in s.groups && g.Answered() && e in g.containers && Matches(s.managed, e)
      ensures Report(g.runtime, e) in batch
    {
      BatchEntriesAre(s.groups, s.managed, Report(g.runtime, e));
    }
    forall r | r in batch
      ensures exists g :: g in s.groups && g.Answered() && g.runtime == r.runtime && r.entry in g.containers && Matches(s.managed, r.entry)
    {
      BatchEntriesAre(s.groups, s.managed, r);
    }
    if id in HostIds(s) {
      var g, e :| g in s.groups && g.Answered() && e in g.containers && Matches(s.managed, e) && Trim(e.id) == id;
      assert ContainerId(Report(g.runtime, e)) == id;
    }
    if id in HostIdsOf(s, runtime) {
      var g, e :| g in s.groups && g.Answered() && Trim(g.runtime) == runtime && e in g.containers && Matches(s.managed, e) && Trim(e.id) == id;
      assert ContainerId(Report(g.runtime, e)) == id;
    }
  }

  /** A delivered tick leaves of every managed container of a store that answered what the store listed of it. */
  lemma TickShowsHost(before: Table, s: Snapshot, after: Table, g: Group, e: Entry)
    requires Delivered(before, s, after)
    requires g in s.groups && g.Answered() && e in g.containers && Matches(s.managed, e)
    ensures (s.daemon, Trim(e.id)) in after && Shows(after[(s.daemon, Trim(e.id))], g.runtime, e, s.now)
  {
    var batch := BatchEntries(s.groups, s.managed);
    var runtimes :| CoverageOf(s, runtimes) && Acceptable(batch, runtimes)
                    && Ingested(before, after, s.daemon, s.workspace, batch, runtimes, s.now);
    IngestedAre(before, after, s.daemon, s.workspace, batch, runtimes, s.now);
    BatchEntriesAre(s.groups, s.managed, Report(g.runtime, e));
  }

  /** After each delivered tick, the rows of a covered runtime are the managed containers the host listed for it. */
  lemma TickMatchesHost(before: Table, s: Snapshot, after: Table, runtime: string, id: string)
    requires Delivered(before, s, after) && Covers(s.groups, runtime)
    ensures id in IdsOf(after, s.daemon, Trim(runtime)) <==> id in HostIdsOf(s, Trim(runtime))
    ensures forall g, e :: g in s.groups && g.Answered() && e in g.containers && Matches(s.managed, e) && Trim(e.id) == id ==>
              (s.daemon, id) in after && Shows(after[(s.daemon, id)], g.runtime, e, s.now)
  {
    forall g, e | g in s.groups && g.Answered() && e in g.containers && Matches(s.managed, e) && Trim(e.id) == id {
      TickShowsHost(before, s, after, g, e);
    }
    var batch := BatchEntries(s.groups, s.managed);
    var runtimes :| CoverageOf(s, runtimes) && Acceptable(batch, runtimes)
                    && Ingested(before, after, s.daemon, s.workspace, batch, runtimes, s.now);
    var names :| TrimmedNames(runtimes, names)
                   && after == Reconcile(before, s.daemon, s.workspace, batch, Dedup(names), s.now);
    var covered := Dedup(names);
    var i :| 0 <= i < |runtimes| && runtimes[i] == runtime;
    assert names[i] == Trim(runtime) && names[i] in covered;
    CoveredRuntimeIsExact(before, s.daemon, s.workspace, batch, covered, s.now, Trim(runtime), id);
    HostIdsAreReported(s, id, Trim(runtime));
  }

  /** All of a daemon's rows carry one of these tags, or none. */
  ghost predicate Tagged(t: Table, daemon: string, tags: set<string>) {
    forall k :: k in t && k.0 == daemon ==> t[k].runtime == "" || t[k].runtime in tags
  }

  ghost predicate Lists(s: Snapshot, daemon: string, tags: set<string>) {
    s.daemon == daemon ==> forall g :: g in s.groups ==> Trim(g.runtime) in tags
  }

  lemma TickKeepsTags(before: Table, s: Snapshot, after: Table, daemon: string, tags: set<string>)
    requires Ticks(before, s, after) && Tagged(before, daemon, tags) && Lists(s, daemon, tags)
    ensures Tagged(after, daemon, tags)
  {
    if after != before {
      var batch := BatchEntries(s.groups, s.managed);
      var runtimes :| CoverageOf(s, runtimes) && Acceptable(batch, runtimes)
                      && Ingested(before, after, s.daemon, s.workspace, batch, runtimes, s.now);
      var names :| TrimmedNames(runtimes, names)
                     && after == Reconcile(before, s.daemon, s.workspace, batch, Dedup(names), s.now);
      var covered := Dedup(names);
      forall k | k in after && k.0 == daemon
        ensures after[k].runtime == "" || after[k].runtime in tags
      {
        ReconcileKeeps(before, s.daemon, s.workspace, batch, covered, s.now, k);
        if s.daemon == daemon && Find(batch, k.1).Some? {
          var r := Find(batch, k.1).value;
          BatchEntriesAre(s.groups, s.managed, r);
          assert after[k].runtime == Trim(r.runtime);
        }
      }
    }
  }

  lemma {:induction false} HistoryKeepsTags(tables: seq<Table>, snapshots: seq<Snapshot>, daemon: string, tags: set<string>, n: nat)
    requires History(tables, snapshots) && n <= |snapshots|
    requires Tagged(tables[0], daemon, tags)
    requires forall s :: s in snapshots ==> Lists(s, daemon, tags)
    ensures Tagged(tables[n], daemon, tags)
  {
    hide Ticks, Tagged, Lists;
    if n > 0 {
      HistoryKeepsTags(tables, snapshots, daemon, tags, n - 1);
      assert Ticks(tables[n - 1], snapshots[n - 1], tables[n]);
      TickKeepsTags(tables[n - 1], snapshots[n - 1], tables[n], daemon, tags);
    }
  }

  /**
   Whatever happened and got lost before, one delivered snapshot that covers every
   runtime the daemon ever listed makes its rows equal to the host's managed containers.
   */
  lemma FullSnapshotConverges(tables: seq<Table>, snapshots: seq<Snapshot>, daemon: string, tags: set<string>, n: nat, id: string)
    requires History(tables, snapshots) && n < |snapshots|
    requires Tagged(tables[0], daemon, tags)
    requires forall s :: s in snapshots ==> Lists(s, daemon, tags)
    requires Delivered(tables[n], snapshots[n], tables[n + 1])
    requires var s := snapshots[n]; s.daemon == daemon && forall tag :: tag in tags ==> exists r :: Covers(s.groups, r) && Trim(r) == tag
    ensures id in AllIdsOf(tables[n + 1], daemon) <==> id in HostIds(snapshots[n])
    ensures var s := snapshots[n];
            forall g, e :: g in s.groups && g.Answered() && e in g.containers && Matches(s.managed, e) && Trim(e.id) == id ==>
              (daemon, id) in tables[n + 1] && Shows(tables[n + 1][(daemon, id)], g.runtime, e, s.now)
  {
    forall g, e | g in snapshots[n].groups && g.Answered() && e in g.containers && Matches(snapshots[n].managed, e) && Trim(e.id) == id {
      TickShowsHost(tables[n], snapshots[n], tables[n + 1], g, e);
    }
    HistoryKeepsTags(tables, snapshots, daemon, tags, n);
    var before, s, after := tables[n], snapshots[n], tables[n + 1];
    assert Delivered(before, s, after);
    var batch := BatchEntries(s.groups, s.managed);
    var runtimes :| CoverageOf(s, runtimes) && Acceptable(batch, runtimes)
                    && Ingested(before, after, s.daemon, s.workspace, batch, runtimes, s.now);
    var names :| TrimmedNames(runtimes, names)
                   && after == Reconcile(before, s.daemon, s.workspace, batch, Dedup(names), s.now);
    var covered := Dedup(names);
    var some :| Covers(s.groups, some);
    assert some in runtimes;
    FullCoverage(before, daemon, s.workspace, batch, covered, s.now);
    HostIdsAreReported(s, id, "");
  }
}
