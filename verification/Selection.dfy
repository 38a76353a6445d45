/** `ORDER BY created_at ASC LIMIT n` over the rows a query matched. */
module Selection {
  import opened Sequences

  /** ids are in the order they were created. */
  ghost predicate OldestFirst(created: map<string, int>, ids: seq<string>) {
    forall i, j :: 0 <= i < j < |ids| && ids[i] in created && ids[j] in created ==> created[ids[i]] <= created[ids[j]]
  }

  /** ids are the oldest `limit` of the matching rows, oldest first; ties may fall either way. */
  ghost predicate Oldest(created: map<string, int>, matching: set<string>, limit: nat, ids: seq<string>) {
    && NoDuplicates(ids)
    && (forall id :: id in ids ==> id in matching)
    && |ids| == Min(limit, |matching|)
    && OldestFirst(created, ids)
    && (forall id, other :: id in ids && id in created && other in matching && other !in ids && other in created ==>
          created[id] <= created[other])
  }

  lemma EarliestExists(created: map<string, int>, ids: set<string>)
    requires ids != {} && ids <= created.Keys
    ensures exists id :: id in ids && forall other :: other in ids ==> created[id] <= created[other]
    decreases ids
  {
    var pick :| pick in ids;
    if ids == {pick} {
      assert forall other :: other in ids ==> other == pick;
    } else {
      var rest := ids - {pick};
      EarliestExists(created, rest);
      var id :| id in rest && forall other :: other in rest ==> created[id] <= created[other];
      var best := if created[pick] < created[id] then pick else id;
      assert forall other :: other in ids ==> other == pick || other in rest;
      assert best in ids;
    }
  }

  method PickOldest(created: map<string, int>, matching: set<string>, limit: nat) returns (ids: seq<string>)
    requires matching <= created.Keys
    ensures Oldest(created, matching, limit, ids)
  {
    var left := matching;
    ids := [];
    while |ids| < limit && left != {}
      invariant left <= matching && |ids| <= limit && |ids| + |left| == |matching|
      invariant forall id :: id in matching ==> (id in ids <==> id !in left)
      invariant forall id :: id in ids ==> id in matching
      invariant NoDuplicates(ids)
      invariant OldestFirst(created, ids)
      invariant forall id, other :: id in ids && other in left ==> created[id] <= created[other]
      decreases left
    {
      EarliestExists(created, left);
      var id :| id in left && forall other :: other in left ==> created[id] <= created[other];
      ids := ids + [id];
      left := left - {id};
    }
  }

  /** When nothing is left out, the selection is everything that matches. */
  lemma OldestTakesAll(created: map<string, int>, matching: set<string>, limit: nat, ids: seq<string>)
    requires Oldest(created, matching, limit, ids) && |matching| <= limit
    ensures forall id :: id in ids <==> id in matching
  {
    CardinalityOfElements(ids);
    SubsetOfSameSize(Elements(ids), matching);
  }

  lemma SubsetOfSameSize(a: set<string>, b: set<string>)
    requires a <= b && |a| == |b|
    ensures a == b
  {
    if a != b {
      var x :| x in b && x !in a;
      SubsetIsSmaller(a, b - {x});
    }
  }
}
