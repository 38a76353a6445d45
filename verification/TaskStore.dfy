/**
 The daemon's recent tasks. Running tasks are never dropped, because a task is
 the only handle to a run in flight; of the finished ones only the newest few
 stay queryable.
 */
module TaskStores {
  import opened Sequences
  import opened Tasks

  /** How many finished tasks stay queryable. */
  const HISTORY_LIMIT: nat := 32

  /** How many of the ids belong to finished tasks. */
  function Finished(order: seq<string>, finished: set<string>): nat {
    |Filter(order, finished)|
  }

  /** order (newest first) without the finished ids beyond the newest `budget` ones. */
  function Retain(order: seq<string>, finished: set<string>, budget: nat): (r: seq<string>) {
    if order == [] then []
    else if order[0] !in finished then [order[0]] + Retain(order[1..], finished, budget)
    else if budget > 0 then [order[0]] + Retain(order[1..], finished, budget - 1)
    else Retain(order[1..], finished, 0)
  }

  lemma {:induction false} RetainKeepsRunning(order: seq<string>, finished: set<string>, running: set<string>, budget: nat)
    requires forall id :: id in order ==> (id in running <==> id !in finished)
    ensures Filter(Retain(order, finished, budget), running) == Filter(order, running)
  {
    if order != [] {
      var head, rest := order[0], order[1..];
      var next := if head in finished && budget > 0 then budget - 1 else budget;
      RetainKeepsRunning(rest, finished, running, next);
      assert ([head] + Retain(rest, finished, next))[1..] == Retain(rest, finished, next);
    }
  }

  lemma {:induction false} RetainKeepsFinished(order: seq<string>, finished: set<string>, budget: nat)
    ensures Filter(Retain(order, finished, budget), finished)
         == Filter(order, finished)[..Min(budget, Finished(order, finished))]
  {
    if order != [] {
      var head, rest := order[0], order[1..];
      var next := if head in finished && budget > 0 then budget - 1 else budget;
      RetainKeepsFinished(rest, finished, next);
      assert ([head] + Retain(rest, finished, next))[1..] == Retain(rest, finished, next);
    }
  }

  /** Running ids all survive, in order; of the finished ids exactly the newest `budget` do, in order. */
  lemma RetainKeepsTheNewest(order: seq<string>, finished: set<string>, running: set<string>, budget: nat)
    requires forall id :: id in order ==> (id in running <==> id !in finished)
    ensures Filter(Retain(order, finished, budget), running) == Filter(order, running)
    ensures Filter(Retain(order, finished, budget), finished)
         == Filter(order, finished)[..Min(budget, Finished(order, finished))]
  {
    RetainKeepsRunning(order, finished, running, budget);
    RetainKeepsFinished(order, finished, budget);
  }

  lemma {:induction false} RetainedInOrder(order: seq<string>, finished: set<string>, budget: nat)
    ensures Subsequence(Retain(order, finished, budget), order)
  {
    if order != [] {
      var head, rest := order[0], order[1..];
      assert order == [head] + rest;
      var next := if head in finished && budget > 0 then budget - 1 else budget;
      RetainedInOrder(rest, finished, next);
      if head in finished && budget == 0 {
        SubsequenceCons(Retain(rest, finished, next), head, rest);
      }
    }
  }

  /** Evicting from the back: a prefix within budget is untouched, and the rest keeps what is left. */
  lemma {:induction false} RetainConcat(a: seq<string>, b: seq<string>, finished: set<string>, budget: nat)
    requires Finished(a, finished) <= budget
    ensures Retain(a + b, finished, budget) == a + Retain(b, finished, budget - Finished(a, finished))
  {
    if a == [] {
      assert a + b == b;
    } else {
      assert (a + b)[1..] == a[1..] + b;
      RetainConcat(a[1..], b, finished, if a[0] in finished then budget - 1 else budget);
    }
  }

  lemma {:induction false} RetainWithinBudget(order: seq<string>, finished: set<string>, budget: nat)
    requires Finished(order, finished) <= budget
    ensures Retain(order, finished, budget) == order
  {
    RetainConcat(order, [], finished, budget);
    assert order + [] == order;
  }

  lemma {:induction false} SubsequenceNoDuplicates(a: seq<string>, b: seq<string>)
    requires Subsequence(a, b) && NoDuplicates(b)
    ensures NoDuplicates(a)
    ensures forall x :: x in a ==> x in b
  {
    if a != [] {
      if a[0] == b[0] {
        SubsequenceNoDuplicates(a[1..], b[1..]);
        assert forall i :: 1 <= i < |a| ==> a[i] == a[1..][i - 1] && a[i] in b[1..];
        assert forall x :: x in b[1..] ==> x != b[0];
      } else {
        SubsequenceNoDuplicates(a, b[1..]);
      }
    }
  }

  /** Dropping one finished id that has `extra` kept ids after it. */
  lemma FilterDropOne(a: seq<string>, id: string, b: seq<string>, finished: set<string>)
    requires id in finished
    ensures Finished(a + [id] + b, finished) == Finished(a + b, finished) + 1
  {
    FilterConcat(a + [id], b, finished);
    FilterConcat(a, [id], finished);
    FilterConcat(a, b, finished);
  }

  lemma FinishedAreAll(order: seq<string>, finished: set<string>)
    ensures Finished(order, finished) <= |order|
  {
  }

  /**
   The eviction loop about to look at order[i]: what lies behind i has already
   lost its finished ids, what lies up to i is untouched.
   */
  ghost predicate Evicting(start: seq<string>, finished: set<string>, i: int, order: seq<string>, kept: seq<string>) {
    && -1 <= i < |start|
    && order == start[..i + 1] + kept
    && kept == Retain(start[i + 1..], finished, 0)
    && Filter(kept, finished) == []
    && NoDuplicates(order)
  }

  lemma EvictStarts(start: seq<string>, finished: set<string>)
    requires NoDuplicates(start) && start != []
    ensures Evicting(start, finished, |start| - 1, start, [])
  {
    assert start[..|start|] == start && start[|start|..] == [] && start + [] == start;
  }

  lemma EvictSkips(start: seq<string>, finished: set<string>, i: int, order: seq<string>, kept: seq<string>)
    requires Evicting(start, finished, i, order, kept) && i >= 0 && order[i] !in finished
    ensures Evicting(start, finished, i - 1, order, [order[i]] + kept)
  {
    assert start[..i + 1] == start[..i] + [order[i]];
    assert start[i..] == [order[i]] + start[i + 1..];
    assert ([order[i]] + kept)[1..] == kept;
    assert order == start[..i] + ([order[i]] + kept);
  }

  lemma DropKeepsNoDuplicates<T>(a: seq<T>, x: T, b: seq<T>)
    requires NoDuplicates(a + [x] + b)
    ensures NoDuplicates(a + b) && x !in a + b
  {
    var whole := a + [x] + b;
    assert forall i :: 0 <= i < |a| ==> (a + b)[i] == whole[i];
    assert forall i :: |a| <= i < |a + b| ==> (a + b)[i] == whole[i + 1];
    assert whole[|a|] == x;
  }

  lemma EvictDrops(start: seq<string>, finished: set<string>, i: int, order: seq<string>, kept: seq<string>)
    requires Evicting(start, finished, i, order, kept) && i >= 0 && order[i] in finished
    ensures var rest := order[..i] + order[i + 1..];
            && Evicting(start, finished, i - 1, rest, kept)
            && Finished(rest, finished) == Finished(order, finished) - 1
            && order[i] !in rest
            && forall x :: x in order <==> x in rest || x == order[i]
  {
    var rest := order[..i] + order[i + 1..];
    assert start[i..] == [order[i]] + start[i + 1..];
    assert rest == start[..i] + kept;
    assert order == order[..i] + [order[i]] + order[i + 1..];
    DropKeepsNoDuplicates(order[..i], order[i], order[i + 1..]);
    hide NoDuplicates;
    FilterDropOne(order[..i], order[i], order[i + 1..], finished);
  }

  /** Having looked at everything, the loop has left no finished id. */
  lemma EvictExhausted(start: seq<string>, finished: set<string>, i: int, order: seq<string>, kept: seq<string>)
    requires Evicting(start, finished, i, order, kept)
    ensures i < 0 ==> Finished(order, finished) == 0
  {
    if i < 0 {
      assert order == kept;
    }
  }

  /** When the loop stops at the limit, the whole order is the retained one. */
  lemma EvictDone(start: seq<string>, finished: set<string>, i: int, order: seq<string>, kept: seq<string>)
    requires Evicting(start, finished, i, order, kept)
    requires Finished(order, finished) == HISTORY_LIMIT
    ensures order == Retain(start, finished, HISTORY_LIMIT) && NoDuplicates(order)
  {
    hide Retain, Filter;
    FilterConcat(start[..i + 1], kept, finished);
    RetainConcat(start[..i + 1], start[i + 1..], finished, HISTORY_LIMIT);
    assert start == start[..i + 1] + start[i + 1..];
  }

  /** Which of `all` are left when only the ids in order are kept. */
  ghost predicate Restricts<T>(left: map<string, T>, all: map<string, T>, order: seq<string>) {
    && (forall id :: id in left <==> id in order)
    && (forall id :: id in left ==> id in all && left[id] == all[id])
  }

  lemma DropRestricts<T>(left: map<string, T>, all: map<string, T>, order: seq<string>, rest: seq<string>, id: string)
    requires Restricts(left, all, order)
    requires id !in rest && forall x :: x in order <==> x in rest || x == id
    ensures Restricts(left - {id}, all, rest)
  {
  }

  class TaskStore {
    var byID: map<string, OpTask>
    var order: seq<string>  // newest first

    /** order names exactly the stored tasks, each once, each under its own id. */
    ghost predicate Valid()
      reads this
    {
      && NoDuplicates(order)
      && (forall id :: id in order <==> id in byID)
      && (forall id :: id in byID ==> byID[id].id == id)
    }

    /** The ids of the finished tasks among those given. */
    static ghost function FinishedOf(tasks: map<string, OpTask>): set<string>
      reads tasks.Values
    {
      set id | id in tasks && tasks[id].status != TaskRunning
    }

    constructor ()
      ensures Valid() && order == []
    {
      byID, order := map[], [];
    }

    /**
     Adds a task under a fresh id (ids are random) and evicts: the order becomes
     the retained one, and the map shrinks with it.
     */
    method Add(task: OpTask)
      requires Valid() && task.id !in byID
      modifies this`byID, this`order
      ensures Valid()
      ensures order == Retain([task.id] + old(order), FinishedOf(old(byID)[task.id := task]), HISTORY_LIMIT)
      ensures Restricts(byID, old(byID)[task.id := task], order)
    {
      byID := byID[task.id := task];
      order := [task.id] + order;
      var finished := CountFinished();
      if finished > HISTORY_LIMIT {
        Evict(finished);
      } else {
        RetainWithinBudget(order, FinishedOf(byID), HISTORY_LIMIT);
      }
    }

    method CountFinished() returns (finished: nat)
      requires Valid()
      ensures finished == Finished(order, FinishedOf(byID))
    {
      finished := 0;
      var j := 0;
      while j < |order|
        invariant 0 <= j <= |order|
        invariant finished == Finished(order[..j], FinishedOf(byID))
      {
        assert order[..j + 1] == order[..j] + [order[j]];
        FilterConcat(order[..j], [order[j]], FinishedOf(byID));
        if order[j] in byID && byID[order[j]].status != TaskRunning {
          finished := finished + 1;
        }
        j := j + 1;
      }
      assert order[..j] == order;
    }

    /** Walks the order from its back and deletes finished tasks in place until the limit is met. */
    method Evict(count: nat)
      requires Valid() && count == Finished(order, FinishedOf(byID)) && count > HISTORY_LIMIT
      modifies this`byID, this`order
      ensures Valid()
      ensures order == Retain(old(order), FinishedOf(old(byID)), HISTORY_LIMIT)
      ensures Restricts(byID, old(byID), order)
    {
      hide Retain, Filter, Finished, Evicting, NoDuplicates;
      ghost var all, start, fin := byID, order, FinishedOf(byID);
      ghost var kept: seq<string> := [];
      var finished := count;
      FinishedAreAll(order, FinishedOf(byID));
      EvictStarts(order, fin);
      var i := |order| - 1;
      while i >= 0 && finished > HISTORY_LIMIT
        invariant -1 <= i < |order| && Evicting(start, fin, i, order, kept) && Restricts(byID, all, order)
        invariant finished == Finished(order, fin) && finished >= HISTORY_LIMIT
      {
        var id, next := order[i], i - 1;
        if id !in byID || byID[id].status == TaskRunning {
          EvictSkips(start, fin, i, order, kept);
          kept := [id] + kept;
          i := next;
          continue;
        }
        EvictDrops(start, fin, i, order, kept);
        DropRestricts(byID, all, order, order[..i] + order[i + 1..], id);
        byID := byID - {id};
        order := order[..i] + order[i + 1..];
        finished := finished - 1;
        i := next;
      }
      EvictExhausted(start, fin, i, order, kept);
      EvictDone(start, fin, i, order, kept);
    }

    method Get(id: string) returns (found: bool, task: OpTask?)
      requires Valid()
      ensures found <==> id in order
      ensures if found then task == byID[id] else task == null
    {
      if id in byID {
        return true, byID[id];
      }
      return false, null;
    }

    /** The most recent tasks, newest first, at most `limit` of them (all when it is not positive). */
    method List(limit: int) returns (tasks: seq<OpTask>)
      requires Valid()
      ensures |tasks| == if 0 < limit < |order| then limit else |order|
      ensures forall i :: 0 <= i < |tasks| ==> tasks[i].id == order[i] && tasks[i] == byID[order[i]]
    {
      var ordered: seq<OpTask> := [];
      var j := 0;
      while j < |order|
        invariant 0 <= j <= |order| && |ordered| == j
        invariant forall i :: 0 <= i < j ==> ordered[i] == byID[order[i]]
      {
        if order[j] in byID {
          ordered := ordered + [byID[order[j]]];
        }
        j := j + 1;
      }
      var n := limit;
      if n <= 0 || n > |ordered| {
        n := |ordered|;
      }
      tasks := ordered[..n];
    }

    /** Shutdown: every running task is asked to stop, and no finished one is touched. */
    method CancelAll()
      requires Valid() && forall id :: id in byID ==> byID[id].Valid()
      modifies set id | id in byID :: byID[id]
      ensures forall id :: id in byID ==>
                var t := byID[id];
                t.Valid() && t.status == old(t.status)
                && t.cancelRequested == (old(t.cancelRequested) || t.status == TaskRunning)
    {
      hide OpTask.Valid;
      var left := byID.Keys;
      while left != {}
        invariant left <= byID.Keys
        invariant forall id :: id in byID ==> byID[id].Valid() && byID[id].status == old(byID[id].status)
        invariant forall id :: id in byID && id !in left ==>
                    byID[id].cancelRequested == (old(byID[id].cancelRequested) || byID[id].status == TaskRunning)
        invariant forall id :: id in left ==> byID[id].cancelRequested == old(byID[id].cancelRequested)
        decreases left
      {
        var id :| id in left;
        forall other | other in byID && other != id
          ensures byID[other] != byID[id]
        {
          assert byID[other].id == other && byID[id].id == id;
        }
        var stopped := byID[id].CancelRun();
        left := left - {id};
      }
    }
  }

  /**
   What an add guarantees of the stored tasks: no running task is ever evicted,
   and the finished tasks left are exactly the newest HISTORY_LIMIT, in order.
   */
  lemma AddKeepsRunningAndNewest(start: seq<string>, finished: set<string>)
    requires NoDuplicates(start)
    ensures var order := Retain(start, finished, HISTORY_LIMIT);
            && NoDuplicates(order)
            && Filter(order, Elements(start) - finished) == Filter(start, Elements(start) - finished)
            && Filter(order, finished) == Filter(start, finished)[..Min(HISTORY_LIMIT, Finished(start, finished))]
  {
    RetainKeepsTheNewest(start, finished, Elements(start) - finished, HISTORY_LIMIT);
    RetainedInOrder(start, finished, HISTORY_LIMIT);
    SubsequenceNoDuplicates(Retain(start, finished, HISTORY_LIMIT), start);
  }
}
