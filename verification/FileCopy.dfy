/**
 The recursive copy of the file API. The file system is a map from the physical
 path of an entry (links in its parents resolved) to what is there; every
 operation on it may also fail for reasons of its own. A request names paths that
 may lead through links.
 */
module FileCopy {
  import opened Wrappers
  import opened Sequences
  import opened Text
  import opened FilePaths

  type Path = seq<string>

  datatype Node = Dir | File(content: seq<byte>) | Link(target: string) | Other

  type Tree = map<Path, Node>

  /** Everything lies in a directory, up to the root. */
  ghost predicate WellFormed(t: Tree) {
    IsDir(t, []) && forall p: Path, name: string :: p + [name] in t ==> IsDir(t, p)
  }

  lemma InDirectory(t: Tree, p: Path)
    requires WellFormed(t) && p in t && p != []
    ensures IsDir(t, p[..|p| - 1])
  {
    assert p == p[..|p| - 1] + [p[|p| - 1]];
  }

  predicate IsDir(t: Tree, p: Path) {
    p in t && t[p] == Dir
  }

  lemma OneMore(names: seq<string>, i: nat, next: nat)
    requires next == i + 1 <= |names|
    ensures names[..i] + [names[i]] == names[..next]
  {
  }

  lemma WholeTake(names: seq<string>)
    ensures names[..|names|] == names
  {
  }

  /** Nothing but directories on the way to p. */
  ghost predicate Passable(t: Tree, p: Path) {
    forall q :: q in t && q <= p ==> t[q] == Dir
  }

  /** Nothing is at or below p. */
  ghost predicate Absent(t: Tree, p: Path) {
    forall q :: q in t ==> !(p <= q)
  }

  lemma {:induction false} AncestorsAreDirs(t: Tree, p: Path, k: nat)
    requires WellFormed(t) && k < |p|
    ensures p in t ==> IsDir(t, p[..k])
    decreases |p|
  {
    if p in t {
      InDirectory(t, p);
      if k < |p| - 1 {
        AncestorsAreDirs(t, p[..|p| - 1], k);
        assert p[..|p| - 1][..k] == p[..k];
      }
    }
  }

  lemma AbsentWhenMissing(t: Tree, p: Path)
    requires WellFormed(t) && p !in t
    ensures Absent(t, p)
  {
    forall q | p <= q
      ensures q !in t
    {
      assert q[..|p|] == p;
      if |p| < |q| {
        AncestorsAreDirs(t, q, |p|);
      } else {
        assert q == p;
      }
    }
  }

  /** Where two paths part, when neither leads to the other. */
  lemma PartAt(a: Path, b: Path) returns (i: nat)
    requires !(a <= b) && !(b <= a)
    ensures i < |a| && i < |b| && a[i] != b[i]
  {
    i := 0;
    while i < |a| && i < |b| && a[i] == b[i]
      invariant i <= |a| && i <= |b| && a[..i] == b[..i]
    {
      i := i + 1;
    }
  }

  lemma Apart(a: Path, b: Path, p: Path)
    requires !(a <= b) && !(b <= a) && a <= p
    ensures !(b <= p)
  {
    var i := PartAt(a, b);
    assert p[i] == a[i];
  }

  lemma NotBetween(a: Path, b: Path, c: Path)
    requires a <= b && !(a <= c)
    ensures !(b <= c)
  {
    if |a| <= |c| {
      var i :| 0 <= i < |a| && a[i] != c[i];
      assert b[i] == a[i];
    }
  }

  lemma NameBelow(to: Path, name: string, p: Path)
    requires to + [name] <= p
    ensures |p| > |to| && p[|to|] == name && to <= p && p == to + p[|to|..]
  {
    assert p[|to|] == (to + [name])[|to|];
    assert forall i :: 0 <= i < |to| ==> p[i] == (to + [name])[i];
  }

  /** What the copy leaves alone: everything outside `to` but the parents it creates for it. */
  ghost predicate Untouched(before: Tree, after: Tree, to: Path) {
    forall p :: !(to <= p) ==>
      && (p in before ==> p in after && after[p] == before[p])
      && (p in after && p !in before ==> after[p] == Dir && p < to)
  }

  lemma UntouchedChain(a: Tree, b: Tree, c: Tree, to: Path)
    requires Untouched(a, b, to) && Untouched(b, c, to)
    ensures Untouched(a, c, to)
  {
  }

  lemma UntouchedAnywhere(t: Tree)
    ensures forall p: Path :: Untouched(t, t, p)
  {
  }

  /** A write confined to a path below `to`, with its parent there already, is one below `to`. */
  lemma UntouchedBelow(before: Tree, after: Tree, to: Path, name: string)
    requires Untouched(before, after, to + [name]) && to in before
    ensures Untouched(before, after, to)
    ensures to in after && after[to] == before[to]
  {
    forall p | !(to <= p)
      ensures p in before ==> p in after && after[p] == before[p]
      ensures p in after && p !in before ==> after[p] == Dir && p < to
    {
      assert to <= to + [name];
      NotBetween(to, to + [name], p);
      if p < to + [name] {
        assert p == (to + [name])[..|p|] == to[..|p|];
      }
    }
    assert !(to + [name] <= to);
  }

  predicate Copied(n: Node) {
    !n.Other?
  }

  /** The subtree at `to` is the subtree at `from` of the source: directories, contents, link targets; other kinds skipped. */
  ghost predicate SameTree(source: Tree, from: Path, after: Tree, to: Path) {
    forall q: Path ::
      && (to + q in after <==> from + q in source && Copied(source[from + q]))
      && (to + q in after ==> after[to + q] == source[from + q])
  }

  /** The same, told kind by kind: each entry below `from` is at its place below `to`, and nothing else is. */
  ghost predicate CopiedKindByKind(before: Tree, from: Path, after: Tree, to: Path) {
    forall q: Path ::
      if from + q !in before then to + q !in after
      else match before[from + q]
           case Dir => to + q in after && after[to + q] == Dir
           case File(content) => to + q in after && after[to + q] == File(content)
           case Link(target) => to + q in after && after[to + q] == Link(target)
           case Other => to + q !in after
  }

  lemma KindByKind(before: Tree, from: Path, after: Tree, to: Path)
    requires SameTree(before, from, after, to)
    ensures CopiedKindByKind(before, from, after, to)
  {
    forall q: Path
      ensures from + q !in before ==> to + q !in after
      ensures from + q in before && before[from + q].Other? ==> to + q !in after
      ensures from + q in before && !before[from + q].Other? ==> to + q in after && after[to + q] == before[from + q]
    {
      assert to + q in after <==> from + q in before && Copied(before[from + q]);
    }
  }

  /** As far as the entries named so far go. */
  ghost predicate SameSoFar(source: Tree, from: Path, after: Tree, to: Path, done: seq<string>) {
    && IsDir(after, to)
    && forall q: Path | q != [] ::
         && (to + q in after <==> q[0] in done && from + q in source && Copied(source[from + q]))
         && (to + q in after ==> after[to + q] == source[from + q])
  }

  function Below(t: Tree, p: Path): set<Path> {
    set q | q in t && p <= q
  }

  lemma BelowShrinks(t: Tree, p: Path, name: string)
    requires p in t
    ensures |Below(t, p + [name])| < |Below(t, p)|
  {
    assert p in Below(t, p) && p !in Below(t, p + [name]);
    assert Below(t, p + [name]) <= Below(t, p) - {p} by {
      forall q | q in Below(t, p + [name])
        ensures p <= q
      {
        NameBelow(p, name, q);
      }
    }
    SubsetIsSmaller(Below(t, p + [name]), Below(t, p) - {p});
  }

  lemma LeafAdded(t: Tree, p: Path, leaf: Node)
    requires WellFormed(t) && p !in t && p != [] && IsDir(t, p[..|p| - 1])
    ensures WellFormed(t[p := leaf]) && Untouched(t, t[p := leaf], p)
  {
    AbsentWhenMissing(t, p);
    var now := t[p := leaf];
    forall q: Path, name: string | q + [name] in now
      ensures IsDir(now, q)
    {
      assert p <= p + [name];
      if q + [name] == p {
        assert p[..|p| - 1] == q;
      } else {
        assert q + [name] in t && IsDir(t, q);
      }
    }
  }

  /** Nothing changed but that some directories on the way to p were made. */
  ghost predicate MadeOnTheWay(before: Tree, now: Tree, p: Path) {
    && (forall q :: q in before ==> q in now && now[q] == before[q])
    && (forall q :: q in now && q !in before ==> now[q] == Dir && q <= p)
    && Untouched(before, now, p)
    && (p !in before ==> forall q :: p < q ==> q !in now && q !in before)
  }

  lemma MadeNothing(t: Tree, p: Path)
    requires WellFormed(t)
    ensures MadeOnTheWay(t, t, p)
  {
    if p !in t {
      AbsentWhenMissing(t, p);
    }
  }

  lemma StepOnTheWay(p: Path, k: nat)
    requires k < |p|
    ensures var next := p[..k + 1]; next != [] && next <= p && next[..|next| - 1] == p[..k] && (next == p || next < p)
  {
  }

  lemma MadeOneMore(before: Tree, now: Tree, p: Path, next: Path)
    requires MadeOnTheWay(before, now, p) && next !in now && (next == p || next < p)
    ensures MadeOnTheWay(before, now[next := Dir], p)
  {
  }

  /** The names of the entries of a directory. */
  function ChildNames(t: Tree, p: Path): (r: set<string>)
    ensures forall n :: n in r <==> p + [n] in t
  {
    var r := set q | q in t && IsChild(p, q) :: q[|p|];
    assert forall n :: n in r <==> p + [n] in t by {
      forall n
        ensures n in r <==> p + [n] in t
      {
        assert IsChild(p, p + [n]) && (p + [n])[|p|] == n;
      }
    }
    r
  }

  predicate IsChild(p: Path, q: Path) {
    |q| > |p| && q == p + [q[|p|]]
  }

  class FileSystem {
    var nodes: Tree

    ghost predicate Valid()
      reads this
    {
      WellFormed(nodes)
    }

    constructor ()
      ensures Valid() && nodes == map[[] := Dir]
    {
      nodes := map[[] := Dir];
    }

    /**
     Creates p and its missing parents as directories; an entry of another kind in
     the way is an error. Here and below, calm says that no operation fails for
     reasons outside the model (permissions, a full disk, an entry removed meanwhile).
     */
    method MkdirAll(p: Path, calm: bool) returns (ok: bool)
      requires Valid()
      modifies this
      ensures Valid() && Untouched(old(nodes), nodes, p)
      ensures ok ==> IsDir(nodes, p)
      ensures calm && Passable(old(nodes), p) ==> ok
      ensures p !in old(nodes) ==> forall q :: p < q ==> q !in nodes && q !in old(nodes)
    {
      ghost var before := nodes;
      MadeNothing(nodes, p);
      var k := 0;
      while k < |p|
        invariant 0 <= k <= |p| && IsDir(nodes, p[..k])
        invariant Valid() && MadeOnTheWay(before, nodes, p)
      {
        var fails := *;
        var deeper := k + 1;
        var next := p[..deeper];
        if fails && !calm {
          return false;
        }
        StepOnTheWay(p, k);
        if next !in nodes {
          LeafAdded(nodes, next, Dir);
          MadeOneMore(before, nodes, p, next);
          nodes := nodes[next := Dir];
        } else if nodes[next] != Dir {
          return false;
        }
        k := deeper;
      }
      assert p[..k] == p;
      return true;
    }

    /** The names in a directory, in whatever order. */
    method ReadDir(p: Path, calm: bool) returns (names: seq<string>, ok: bool)
      requires Valid()
      ensures calm ==> ok
      ensures NoDuplicates(names)
      ensures ok ==> forall n :: n in names <==> p + [n] in nodes
    {
      ok := *;
      ok := ok || calm;
      names := [];
      var left := ChildNames(nodes, p);
      ghost var all := left;
      while left != {}
        invariant forall n :: n in all <==> n in left || n in names
        invariant NoDuplicates(names) && forall n :: n in names ==> n !in left
        decreases left
      {
        var n :| n in left;
        names := names + [n];
        left := left - {n};
      }
    }

    /** Creates a link; an entry that is there already is an error. */
    method Symlink(target: string, p: Path, calm: bool) returns (ok: bool)
      requires Valid()
      modifies this
      ensures Valid()
      ensures nodes == if ok then old(nodes)[p := Link(target)] else old(nodes)
      ensures ok ==> p != [] && p !in old(nodes) && IsDir(old(nodes), p[..|p| - 1])
      ensures calm && p != [] && p !in old(nodes) && IsDir(old(nodes), p[..|p| - 1]) ==> ok
    {
      ok := *;
      ok := ok || calm;
      if p == [] || p in nodes || p[..|p| - 1] !in nodes || nodes[p[..|p| - 1]] != Dir {
        ok := false;
      }
      if ok {
        LeafAdded(nodes, p, Link(target));
        nodes := nodes[p := Link(target)];
      }
    }

    /**
     Streams what opening the source reads, a link followed, into a file at `to`,
     which must not exist. A failing stream leaves what it wrote.
     */
    method CopyFileContents(followed: Path, to: Path, calm: bool) returns (ok: bool)
      requires Valid() && to !in nodes
      modifies this
      ensures Valid() && Untouched(old(nodes), nodes, to)
      ensures ok ==> Opens(old(nodes), followed).Some?
      ensures ok && Opens(old(nodes), followed).value.File? ==> nodes == old(nodes)[to := Opens(old(nodes), followed).value]
      ensures nodes == old(nodes) || (to in nodes && nodes[to].File? && nodes == old(nodes)[to := nodes[to]])
      ensures ok || nodes != old(nodes) ==> to != [] && IsDir(old(nodes), to[..|to| - 1])
      ensures ok ==> nodes != old(nodes)
      ensures calm && to != [] && IsDir(old(nodes), to[..|to| - 1]) && Readable(old(nodes), followed) ==> ok
    {
      var source := Opens(nodes, followed);
      var denied := *;
      if source.None? || (denied && !calm) {
        return false;
      }
      if to == [] || to[..|to| - 1] !in nodes || nodes[to[..|to| - 1]] != Dir {
        return false;
      }
      match source.value {
        case File(content) =>
          var n: nat :| n <= |content| && (calm ==> n == |content|);
          LeafAdded(nodes, to, File(content[..n]));
          nodes := nodes[to := File(content[..n])];
          if n < |content| {
            return false;
          }
          assert content[..n] == content;
        case Other =>
          var content := *;
          LeafAdded(nodes, to, File(content));
          nodes := nodes[to := File(content)];
        case Dir =>
          LeafAdded(nodes, to, File([]));
          nodes := nodes[to := File([])];
          return false;
        case Link(_) =>
          assert false;
      }
      return true;
    }

    /**
     Duplicates a directory below an absent destination. Each level keeps its
     directory open; handles is how many more may be. `source` is the tree the copy
     started from. Inside its own source the copy would find ever deeper
     directories to copy, until no more can be opened.
     */
    method CopyFileTree(from: Path, to: Path, overwrite: bool, calm: bool, handles: nat, ghost source: Tree)
      returns (ok: bool)
      requires Valid() && from in nodes && Absent(nodes, to)
      requires !(from <= to) ==> Copying(source, nodes, from)
      modifies this
      ensures Valid() && Untouched(old(nodes), nodes, to)
      ensures from <= to ==> !ok
      ensures !(from <= to) && ok ==> SameTree(source, from, nodes, to) && CopiedKindByKind(source, from, nodes, to)
      ensures !(from <= to) && calm && Passable(old(nodes), to) && handles >= |Below(source, from)| ==> ok
      decreases handles, 0
    {
      ghost var start := nodes;
      assert !(to <= from);
      ok := MkdirAll(to, calm);
      if !ok {
        return;
      }
      if handles == 0 {
        NotEmpty(source, from);
        return false;
      }
      NothingBelow(start, nodes, to);
      if !(from <= to) {
        AgreeStays(start, nodes, source, from, to);
      }
      var names;
      names, ok := ReadDir(from, calm);
      if !ok {
        return;
      }
      if from <= to {
        WayInside(nodes, from, to);
      }
      NothingBelowIsAbsent(nodes, to, names);
      var i := 0;
      while i < |names|
        invariant 0 <= i <= |names| && Valid() && Untouched(start, nodes, to) && IsDir(nodes, to)
        invariant forall j :: i <= j < |names| ==> Absent(nodes, to + [names[j]])
        invariant from <= to ==> IsDir(nodes, from + [to[|from|]]) && forall j :: 0 <= j < i ==> names[j] != to[|from|]
        invariant !(from <= to) ==> Agree(nodes, source, from) && SameSoFar(source, from, nodes, to, names[..i])
      {
        var next := i + 1;
        ghost var before := nodes;
        ok := CopyEntry(from, to, names[i], overwrite, calm, handles - 1, source, names[..i]);
        UntouchedBelow(before, nodes, to, names[i]);
        UntouchedChain(start, before, nodes, to);
        if !(from <= to) {
          AgreeStays(start, nodes, source, from, to);
          BelowShrinks(source, from, names[i]);
        }
        if !ok {
          return;
        }
        OthersStayAbsent(before, nodes, to, names, i, next);
        if from <= to {
          WayInside(nodes, from, to);
        }
        OneMore(names, i, next);
        i := next;
      }
      if !(from <= to) {
        WholeTake(names);
        SoFarIsAll(source, from, nodes, to, names);
        KindByKind(source, from, nodes, to);
      }
    }

    /** Duplicates one entry of a directory, by its kind; anything but a directory, a file or a link is skipped. */
    method CopyEntry(from: Path, to: Path, name: string, overwrite: bool, calm: bool, handles: nat, ghost source: Tree,
                     ghost done: seq<string>)
      returns (ok: bool)
      requires Valid() && IsDir(nodes, to) && Absent(nodes, to + [name]) && !(to <= from)
      requires from <= to && to[|from|] == name ==> IsDir(nodes, from + [name])
      requires !(from <= to) ==>
                 Copying(source, nodes, from) && from + [name] in source && name !in done
                 && SameSoFar(source, from, nodes, to, done)
      modifies this
      ensures Valid() && Untouched(old(nodes), nodes, to + [name])
      ensures from <= to && to[|from|] == name ==> !ok
      ensures !(from <= to) && ok ==> SameSoFar(source, from, nodes, to, done + [name])
      ensures !(from <= to) && calm && handles >= |Below(source, from + [name])| ==> ok
      decreases handles, 1
    {
      var childFrom, childTo := from + [name], to + [name];
      assert from <= childFrom && childTo[..|childTo| - 1] == to;
      ghost var start := nodes;
      var vanished := *;
      if childFrom !in nodes || (vanished && !calm) {
        return false;
      }
      match nodes[childFrom] {
        case Dir =>
          ChildrenApart(from, to, name);
          PassableBelow(nodes, to, name);
          ghost var origin := if from <= to then nodes else source;
          if !(from <= to) {
            AgreeBelow(nodes, source, from, name);
          }
          ok := CopyFileTree(childFrom, childTo, overwrite, calm, handles, origin);
          UntouchedBelow(start, nodes, to, name);
          if ok && !(from <= to) {
            TreeExtends(source, from, start, nodes, to, done, name);
          }
          return;
        case Link(target) =>
          if childTo in nodes && overwrite {
            return false;
          }
          ok := Symlink(target, childTo, calm);
        case File(_) =>
          ok := CopyFileContents(childFrom, childTo, calm);
        case Other =>
          ok := true;
      }
      if ok && !(from <= to) {
        LeafExtends(source, from, start, nodes, to, done, name);
      }
    }

    /** A directory with all that is below it, or what opening anything else, at `opened`, reads. */
    method CopyAny(from: Path, to: Path, overwrite: bool, followed: Path, calm: bool, handles: nat) returns (ok: bool)
      requires Valid() && from in nodes && to !in nodes && (nodes[from].Link? || followed == from)
      modifies this
      ensures Valid() && Untouched(old(nodes), nodes, to)
      ensures ok ==> !(from <= to)
      ensures !(from <= to) ==> Agree(nodes, old(nodes), from)
      ensures ok ==> (SameTree(old(nodes), from, nodes, to) <==> old(nodes)[from].Dir? || old(nodes)[from].File?)
      ensures ok && (old(nodes)[from].Dir? || old(nodes)[from].File?) ==> CopiedKindByKind(old(nodes), from, nodes, to)
      ensures ok && followed in old(nodes) && old(nodes)[followed].File? ==> to in nodes && nodes[to] == old(nodes)[followed]
      ensures calm && Passable(old(nodes), to) && old(nodes)[from] == Dir && handles >= |Below(old(nodes), from)| ==>
                (ok <==> !(from <= to))
      ensures calm && to != [] && IsDir(old(nodes), to[..|to| - 1]) && old(nodes)[from].File? ==> ok
    {
      ghost var start := nodes;
      AbsentWhenMissing(nodes, to);
      assert !(to <= from);
      if nodes[from] == Dir {
        ok := CopyFileTree(from, to, overwrite, calm, handles, nodes);
      } else {
        NoDestinationBelowALeaf(nodes, from, to);
        ok := CopyFileContents(followed, to, calm);
        if ok {
          OneNodeCopied(start, nodes, from, to);
        }
      }
      if !(from <= to) {
        AgreeStays(start, nodes, start, from, to);
      }
      if ok && (start[from].Dir? || start[from].File?) {
        KindByKind(start, from, nodes, to);
      }
    }

    /**
     The copy operation. The paths of the request lead to their places through the
     links among their parents, at most `links` of them. An existing destination is
     a conflict; overwriting one is not modelled.
     */
    method Copy(fromRel: Path, toRel: Path, sameRoot: bool, allowWrite: bool, overwrite: bool, links: nat, calm: bool,
                handles: nat)
      returns (r: Outcome)
      requires Valid() && (overwrite && Place(nodes, toRel, links).Some? ==> Place(nodes, toRel, links).value !in nodes)
      modifies this
      ensures Valid()
      ensures r == Refused <==> !allowWrite || !Guarded(fromRel, toRel, sameRoot)
      ensures r == Missing <==>
                r != Refused && Place(old(nodes), fromRel, links).Some? && Place(old(nodes), fromRel, links).value !in old(nodes)
      ensures r == Conflict <==>
                r != Refused && Present(old(nodes), fromRel, links) && Present(old(nodes), toRel, links)
      ensures r == Refused || r == Missing || r == Conflict || Place(old(nodes), toRel, links).None? ==> nodes == old(nodes)
      ensures Place(old(nodes), toRel, links).Some? ==> Untouched(old(nodes), nodes, Place(old(nodes), toRel, links).value)
      ensures r == Done ==>
                && Present(old(nodes), fromRel, links) && Place(old(nodes), toRel, links).Some?
                && Duplicated(old(nodes), nodes, Place(old(nodes), fromRel, links).value,
                              Place(old(nodes), toRel, links).value, Reads(old(nodes), fromRel, links))
      ensures r == Done && (old(nodes)[Place(old(nodes), fromRel, links).value].Dir? || old(nodes)[Place(old(nodes), fromRel, links).value].File?) ==>
                CopiedKindByKind(old(nodes), Place(old(nodes), fromRel, links).value, nodes, Place(old(nodes), toRel, links).value)
      ensures calm && r != Refused && Ready(old(nodes), fromRel, toRel, links, handles) ==>
                (r == Done <==> !(Place(old(nodes), fromRel, links).value <= Place(old(nodes), toRel, links).value))
      ensures calm && r != Refused && ReadyFile(old(nodes), fromRel, toRel, links) ==> r == Done
    {
      UntouchedAnywhere(nodes);
      if !allowWrite || !sameRoot {
        return Refused;
      }
      if fromRel == [] || toRel == [] || fromRel == toRel || fromRel <= toRel {
        return Refused;
      }
      var from, to := Place(nodes, fromRel, links), Place(nodes, toRel, links);
      if from.None? {
        return Failed;
      }
      if from.value !in nodes {
        return Missing;
      }
      if to.None? {
        return Failed;
      }
      if to.value in nodes {
        return Conflict;
      }
      var followed := Locate(nodes, [], fromRel, links, true);
      if nodes[from.value].Link? && followed.None? {
        return Failed;
      }
      if !nodes[from.value].Link? {
        NoLinkToFollow(nodes, [], fromRel, links);
      }
      var ok := CopyAny(from.value, to.value, overwrite, followed.value, calm, handles);
      return if ok then Done else Failed;
    }
  }

  datatype Outcome = Done | Refused | Missing | Conflict | Failed

  /** The lexical checks: both paths named, in one root, different, and the destination not spelled inside the source. */
  predicate Guarded(fromRel: Path, toRel: Path, sameRoot: bool) {
    sameRoot && fromRel != [] && toRel != [] && fromRel != toRel && !(fromRel <= toRel)
  }

  /**
   Where a path leads: links among the parents are followed, one at the end only
   when asked. A path that leaves the root, or has too many links, leads nowhere.
   */
  function Locate(t: Tree, cur: Path, rest: seq<string>, links: nat, followLast: bool): Option<Path>
    decreases links, |rest|
  {
    if rest == [] then Some(cur)
    else
      var name, more := rest[0], rest[1..];
      var next := cur + [name];
      if name == "" || name == "." then Locate(t, cur, more, links, followLast)
      else if name == ".." then
        if cur == [] then None else Locate(t, cur[..|cur| - 1], more, links, followLast)
      else if next in t && t[next].Link? && (more != [] || followLast) then
        if links == 0 || IsAbs(t[next].target) then None
        else Locate(t, cur, Split(t[next].target, '/') + more, links - 1, followLast)
      else Locate(t, next, more, links, followLast)
  }

  /** The entry a path of a request names. */
  function Place(t: Tree, rel: Path, links: nat): Option<Path> {
    Locate(t, [], rel, links, false)
  }

  ghost predicate Present(t: Tree, rel: Path, links: nat) {
    Place(t, rel, links).Some? && Place(t, rel, links).value in t
  }

  /** A path that does not end in a link leads to the same entry either way. */
  lemma {:induction false} NoLinkToFollow(t: Tree, cur: Path, rest: seq<string>, links: nat)
    requires var p := Locate(t, cur, rest, links, false); p.Some? && p.value in t && !t[p.value].Link?
    ensures Locate(t, cur, rest, links, true) == Locate(t, cur, rest, links, false)
    decreases links, |rest|
  {
    if rest != [] {
      var name, more := rest[0], rest[1..];
      var next := cur + [name];
      if name == "" || name == "." {
        NoLinkToFollow(t, cur, more, links);
      } else if name == ".." {
        NoLinkToFollow(t, cur[..|cur| - 1], more, links);
      } else if next in t && t[next].Link? && more != [] {
        NoLinkToFollow(t, cur, Split(t[next].target, '/') + more, links - 1);
      } else {
        NoLinkToFollow(t, next, more, links);
      }
    }
  }

  /** What opening a path reads, a link at its end followed. */
  ghost function Reads(t: Tree, rel: Path, links: nat): Option<Node> {
    match Locate(t, [], rel, links, true)
    case None => None
    case Some(q) => if q in t then Some(t[q]) else None
  }

  /** What a copy that is done left: the source's tree (the file behind a link, for a link), apart from the source. */
  ghost predicate Duplicated(before: Tree, after: Tree, from: Path, to: Path, read: Option<Node>) {
    && from in before && to !in before && !(from <= to) && Agree(after, before, from)
    && (SameTree(before, from, after, to) <==> before[from].Dir? || before[from].File?)
    && (read.Some? && read.value.File? ==> to in after && after[to] == read.value)
  }

  /** A directory that can be copied, a destination that can be made, and enough directories that can be open at once. */
  ghost predicate Ready(t: Tree, fromRel: Path, toRel: Path, links: nat, handles: nat) {
    && Place(t, fromRel, links).Some? && Place(t, toRel, links).Some?
    && var from, to := Place(t, fromRel, links).value, Place(t, toRel, links).value;
       IsDir(t, from) && to !in t && Passable(t, to) && handles >= |Below(t, from)|
  }

  /** A regular file, and a destination in a directory that is there. */
  ghost predicate ReadyFile(t: Tree, fromRel: Path, toRel: Path, links: nat) {
    && Present(t, fromRel, links) && Place(t, toRel, links).Some?
    && var from, to := Place(t, fromRel, links).value, Place(t, toRel, links).value;
       t[from].File? && to !in t && to != [] && IsDir(t, to[..|to| - 1])
  }

  /** The tree the copy started from, as far as the source goes. */
  ghost predicate Copying(source: Tree, now: Tree, from: Path) {
    WellFormed(source) && IsDir(source, from) && Agree(now, source, from)
  }

  /** What opening an entry reads, when its link was followed to `followed`. */
  function Opens(t: Tree, followed: Path): Option<Node> {
    if followed in t && !t[followed].Link? then Some(t[followed]) else None
  }

  predicate Readable(t: Tree, followed: Path) {
    Opens(t, followed).Some? && !Opens(t, followed).value.Dir?
  }

  /** The two trees are the same below p. */
  ghost predicate Agree(a: Tree, b: Tree, p: Path) {
    forall q :: p <= q ==> (q in a <==> q in b) && (q in b ==> a[q] == b[q])
  }

  /** The source stays as it was while only the destination, apart from it, changes. */
  lemma AgreeStays(start: Tree, now: Tree, source: Tree, from: Path, to: Path)
    requires Agree(start, source, from) && Untouched(start, now, to)
    requires !(from <= to) && !(to <= from)
    ensures Agree(now, source, from)
  {
    forall q | from <= q
      ensures (q in now <==> q in source) && (q in source ==> now[q] == source[q])
    {
      Apart(from, to, q);
      NotBetween(from, q, to);
    }
  }

  lemma AgreeBelow(a: Tree, b: Tree, p: Path, name: string)
    requires Agree(a, b, p)
    ensures Agree(a, b, p + [name])
  {
    assert p <= p + [name];
  }

  lemma PassableBelow(t: Tree, p: Path, name: string)
    requires WellFormed(t) && IsDir(t, p) && p + [name] !in t
    ensures Passable(t, p + [name])
  {
    forall q | q in t && q <= p + [name]
      ensures t[q] == Dir
    {
      ShorterOrWhole(p, name, q);
      if q < p {
        AncestorsAreDirs(t, p, |q|);
      }
    }
  }

  lemma ShorterOrWhole(p: Path, name: string, q: Path)
    requires q <= p + [name]
    ensures q < p || q == p || q == p + [name]
    ensures q < p ==> q == p[..|q|]
  {
    if |q| <= |p| {
      assert q == p[..|q|];
    }
  }

  lemma NotEmpty(t: Tree, p: Path)
    ensures p in t ==> |Below(t, p)| > 0
  {
    if p in t {
      assert p in Below(t, p);
    }
  }

  lemma NothingBelowIsAbsent(t: Tree, to: Path, names: seq<string>)
    requires forall q: Path | q != [] :: to + q !in t
    ensures forall j :: 0 <= j < |names| ==> Absent(t, to + [names[j]])
  {
    forall j, p | 0 <= j < |names| && to + [names[j]] <= p
      ensures p !in t
    {
      NameBelow(to, names[j], p);
      var q := p[|to|..];
      assert q != [] && p == to + q;
    }
  }

  lemma OthersStayAbsent(before: Tree, now: Tree, to: Path, names: seq<string>, i: nat, next: nat)
    requires NoDuplicates(names) && next == i + 1 <= |names|
    requires Untouched(before, now, to + [names[i]]) && to in before
    requires forall j :: i <= j < |names| ==> Absent(before, to + [names[j]])
    ensures forall j :: next <= j < |names| ==> Absent(now, to + [names[j]])
  {
    forall j, p | next <= j < |names| && to + [names[j]] <= p
      ensures p !in now
    {
      NameBelow(to, names[j], p);
      if to + [names[i]] <= p {
        NameBelow(to, names[i], p);
      }
    }
  }

  /** In a destination inside the source, the first directory on the way there is one of the source's entries. */
  lemma WayInside(t: Tree, from: Path, to: Path)
    requires WellFormed(t) && IsDir(t, to) && from <= to && from != to
    ensures IsDir(t, from + [to[|from|]])
  {
    assert to[..|from| + 1] == from + [to[|from|]];
    if |from| + 1 < |to| {
      AncestorsAreDirs(t, to, |from| + 1);
    } else {
      assert to[..|from| + 1] == to;
    }
  }

  /** An entry's copy goes inside the entry only if it is that directory. */
  lemma ChildrenApart(from: Path, to: Path, name: string)
    requires !(to <= from)
    ensures from + [name] <= to + [name] <==> from <= to && to[|from|] == name
  {
    var a, b := from + [name], to + [name];
    if from <= to {
      assert |from| < |to|;
      assert b[..|from|] == from && b[|from|] == to[|from|];
      assert a <= b <==> b[..|from| + 1] == a;
      assert b[..|from| + 1] == b[..|from|] + [b[|from|]];
    } else {
      ApartStays(from, to, name);
    }
  }

  /** No directory lies below a leaf, so nothing can be created there. */
  lemma NoDestinationBelowALeaf(t: Tree, from: Path, to: Path)
    requires WellFormed(t) && from in t && t[from] != Dir && to !in t
    ensures from <= to ==> to != [] && !IsDir(t, to[..|to| - 1])
  {
    if from <= to {
      assert from != to;
      var parent := to[..|to| - 1];
      assert from <= parent;
      if parent in t && from != parent {
        LeafHasNothingBelow(t, from, parent);
      }
    }
  }

  lemma ApartStays(from: Path, to: Path, name: string)
    requires !(from <= to) && !(to <= from)
    ensures !(from + [name] <= to + [name])
  {
    var i := PartAt(from, to);
    assert (from + [name])[i] == from[i] && (to + [name])[i] == to[i];
  }

  /** Right after it was created, the destination directory is empty. */
  lemma NothingBelow(start: Tree, now: Tree, to: Path)
    requires Absent(start, to) && IsDir(now, to)
    requires to !in start ==> forall q :: to < q ==> q !in now && q !in start
    ensures forall q: Path | q != [] :: to + q !in now
  {
    forall q: Path | q != []
      ensures to + q !in now
    {
      assert to < to + q;
    }
  }

  /** Splits a path below the destination at its first name. */
  lemma FirstName(base: Path, q: Path)
    requires q != []
    ensures base + q == base + [q[0]] + q[1..]
    ensures base + [q[0]] <= base + q
  {
    assert (base + q)[..|base| + 1] == base + [q[0]];
  }

  lemma OtherNamesStay(start: Tree, now: Tree, to: Path, name: string, q: Path)
    requires Untouched(start, now, to + [name]) && q != [] && q[0] != name
    ensures to + q in now <==> to + q in start
    ensures to + q in start ==> now[to + q] == start[to + q]
  {
    assert (to + q)[|to|] == q[0] && (to + [name])[|to|] == name;
  }

  lemma TreeExtends(source: Tree, from: Path, start: Tree, now: Tree, to: Path, done: seq<string>, name: string)
    requires SameSoFar(source, from, start, to, done)
    requires Untouched(start, now, to + [name]) && IsDir(now, to)
    requires SameTree(source, from + [name], now, to + [name])
    ensures SameSoFar(source, from, now, to, done + [name])
  {
    forall q: Path | q != []
      ensures to + q in now <==> q[0] in done + [name] && from + q in source && Copied(source[from + q])
      ensures to + q in now ==> now[to + q] == source[from + q]
    {
      if q[0] == name {
        FirstName(to, q);
        FirstName(from, q);
        assert to + [name] + q[1..] == to + q && from + [name] + q[1..] == from + q;
      } else {
        OtherNamesStay(start, now, to, name, q);
      }
    }
  }

  lemma LeafHasNothingBelow(t: Tree, p: Path, q: Path)
    requires WellFormed(t) && p in t && t[p] != Dir && p < q
    ensures q !in t
  {
    AncestorsAreDirs(t, q, |p|);
    assert q[..|p|] == p;
  }

  /** A file or link was put in place, or something else was skipped. */
  lemma LeafExtends(source: Tree, from: Path, start: Tree, now: Tree, to: Path, done: seq<string>, name: string)
    requires WellFormed(source) && from + [name] in source && source[from + [name]] != Dir
    requires SameSoFar(source, from, start, to, done) && Absent(start, to + [name])
    requires now == if Copied(source[from + [name]]) then start[to + [name] := source[from + [name]]] else start
    ensures SameSoFar(source, from, now, to, done + [name])
  {
    assert to != to + [name];
    forall q: Path | q != []
      ensures to + q in now <==> q[0] in done + [name] && from + q in source && Copied(source[from + q])
      ensures to + q in now ==> now[to + q] == source[from + q]
    {
      FirstName(to, q);
      FirstName(from, q);
      if q[0] == name {
        assert to + q !in start;
        if q == [name] {
        } else {
          assert from + [name] < from + q;
          LeafHasNothingBelow(source, from + [name], from + q);
          assert |to + q| > |to + [name]|;
        }
      } else {
        assert (to + q)[|to|] == q[0] && (to + [name])[|to|] == name;
      }
    }
  }

  lemma SoFarIsAll(source: Tree, from: Path, now: Tree, to: Path, names: seq<string>)
    requires WellFormed(source) && IsDir(source, from)
    requires SameSoFar(source, from, now, to, names)
    requires forall n :: from + [n] in source ==> n in names
    ensures SameTree(source, from, now, to)
  {
    forall q: Path
      ensures to + q in now <==> from + q in source && Copied(source[from + q])
      ensures to + q in now ==> now[to + q] == source[from + q]
    {
      if q == [] {
        assert to + q == to && from + q == from;
      } else if from + q in source {
        FirstName(from, q);
        if |q| > 1 {
          AncestorsAreDirs(source, from + q, |from| + 1);
          assert (from + q)[..|from| + 1] == from + [q[0]];
        } else {
          assert q == [q[0]];
        }
      }
    }
  }

  /** A copy that is not of a directory: one node was put at the destination. */
  lemma OneNodeCopied(start: Tree, now: Tree, from: Path, to: Path)
    requires WellFormed(start) && from in start && start[from] != Dir && Absent(start, to)
    requires to in now && now[to].File? && now == start[to := now[to]]
    requires start[from].File? ==> now[to] == start[from]
    ensures SameTree(start, from, now, to) <==> start[from].File?
  {
    assert to + [] == to && from + [] == from;
    if start[from].File? {
      forall q: Path
        ensures to + q in now <==> from + q in start && Copied(start[from + q])
        ensures to + q in now ==> now[to + q] == start[from + q]
      {
        if q != [] {
          assert from < from + q && to < to + q;
          LeafHasNothingBelow(start, from, from + q);
        }
      }
    }
  }

  // ------------------------------------------------- destinations inside the source

  /** No link among the parents of a path. */
  ghost predicate NoLinkedParents(t: Tree, rel: Path) {
    forall q :: q < rel && q in t ==> !t[q].Link?
  }

  lemma {:induction false} PlainPathLeadsToItself(t: Tree, rel: Path, k: nat, links: nat)
    requires k <= |rel| && AllPlain(rel) && NoLinkedParents(t, rel)
    ensures Locate(t, rel[..k], rel[k..], links, false) == Some(rel)
    decreases |rel| - k
  {
    if k == |rel| {
      assert rel[..k] == rel;
    } else {
      var cur, name := rel[..k], rel[k];
      assert Plain(name);
      assert rel[k..][0] == name && rel[k..][1..] == rel[k + 1..];
      assert cur + [name] == rel[..k + 1];
      if k + 1 < |rel| {
        assert rel[..k + 1] < rel;
      }
      PlainPathLeadsToItself(t, rel, k + 1, links);
    }
  }

  /** Without links among the parents the lexical check is the physical one. */
  lemma GuardSuffices(t: Tree, fromRel: Path, toRel: Path, links: nat)
    requires Guarded(fromRel, toRel, true) && AllPlain(fromRel) && AllPlain(toRel)
    requires NoLinkedParents(t, fromRel) && NoLinkedParents(t, toRel)
    ensures Place(t, fromRel, links) == Some(fromRel) && Place(t, toRel, links) == Some(toRel)
    ensures !(Place(t, fromRel, links).value <= Place(t, toRel, links).value)
  {
    PlainPathLeadsToItself(t, fromRel, 0, links);
    PlainPathLeadsToItself(t, toRel, 0, links);
    assert fromRel[..0] == [] && fromRel[0..] == fromRel;
    assert toRel[..0] == [] && toRel[0..] == toRel;
  }

  /** With a link l to a, copying "a" to "l/x" passes the check, and leads inside the source. */
  lemma LinkedParentPassesTheGuard(links: nat)
    requires links > 0
    ensures var t: Tree := map[[] := Dir, ["a"] := Dir, ["l"] := Link("a")];
            && WellFormed(t) && Guarded(["a"], ["l", "x"], true)
            && Place(t, ["a"], links) == Some(["a"]) && Place(t, ["l", "x"], links) == Some(["a", "x"])
            && ["a"] <= ["a", "x"]
            && forall handles: nat :: handles >= |Below(t, ["a"])| ==> Ready(t, ["a"], ["l", "x"], links, handles)
  {
    var t: Tree := map[[] := Dir, ["a"] := Dir, ["l"] := Link("a")];
    assert "a"[0] != "l"[0];
    assert ["a"][0] != ["l", "x"][0];
    assert ["a", "x"][..1] == ["a"];
    LinkIsFollowed(t, links);
  }

  lemma LinkIsFollowed(t: Tree, links: nat)
    requires t == map[[] := Dir, ["a"] := Dir, ["l"] := Link("a")] && links > 0
    ensures Place(t, ["a"], links) == Some(["a"]) && Place(t, ["l", "x"], links) == Some(["a", "x"])
  {
    SplitPlain("a", '/');
    assert [] + ["a"] == ["a"] && [] + ["l"] == ["l"] && ["a"] + ["x"] == ["a", "x"];
    assert ["a"][1..] == [] && ["x"][1..] == [] && ["l", "x"][1..] == ["x"] && ["a", "x"][1..] == ["x"];
    assert Locate(t, ["a"], [], links, false) == Some(["a"]);
    assert ["a", "x"] !in t;
    assert Locate(t, ["a", "x"], [], links - 1, false) == Some(["a", "x"]);
    assert Locate(t, ["a"], ["x"], links - 1, false) == Locate(t, ["a"] + ["x"], [], links - 1, false);
    assert Locate(t, [], ["a", "x"], links - 1, false) == Locate(t, ["a"], ["x"], links - 1, false);
    assert t[["l"]].target == "a" && !IsAbs("a") && Split("a", '/') + ["x"] == ["a", "x"];
    assert Locate(t, [], ["l", "x"], links, false) == Locate(t, [], ["a", "x"], links - 1, false);
  }

  /** The longest path below p to something that is copied. */
  lemma LongestBelow(t: Tree, p: Path) returns (q: Path)
    requires p in t && Copied(t[p])
    ensures p + q in t && Copied(t[p + q]) && forall r: Path :: p + r in t && Copied(t[p + r]) ==> |r| <= |q|
  {
    q := [];
    assert p + [] == p;
    while exists r: Path :: p + r in t && Copied(t[p + r]) && |r| > |q|
      invariant p + q in t && Copied(t[p + q])
      decreases MaxLength(t) - |q|
    {
      var r: Path :| p + r in t && Copied(t[p + r]) && |r| > |q|;
      MaxLengthBounds(t, p + r);
      q := r;
    }
  }

  ghost function MaxLength(t: Tree): nat {
    SumLengths(t.Keys)
  }

  ghost function SumLengths(s: set<Path>): nat
    decreases s
  {
    if s == {} then 0
    else
      var p :| p in s;
      |p| + SumLengths(s - {p})
  }

  lemma MaxLengthBounds(t: Tree, p: Path)
    requires p in t
    ensures |p| <= MaxLength(t)
  {
    SumBounds(t.Keys, p);
  }

  lemma SumBounds(s: set<Path>, p: Path)
    requires p in s
    ensures |p| <= SumLengths(s)
    decreases s
  {
    var x :| x in s && SumLengths(s) == |x| + SumLengths(s - {x});
    if x != p {
      SumBounds(s - {x}, p);
    }
  }

  lemma SameTreeAt(source: Tree, from: Path, after: Tree, to: Path, q: Path)
    requires SameTree(source, from, after, to) && from + q in source && Copied(source[from + q])
    ensures to + q in after && after[to + q] == source[from + q]
  {
  }

  /** Inside itself a copy can never come out: nothing leaves the source as it was and its tree at the destination. */
  lemma NoCopyInsideItself(before: Tree, after: Tree, from: Path, d: Path)
    requires from in before && Copied(before[from]) && d != [] && Agree(after, before, from)
    ensures !SameTree(before, from, after, from + d)
  {
    var q := LongestBelow(before, from);
    var deeper := d + q;
    assert from + d + q == from + deeper && |deeper| > |q|;
    assert !(from + deeper in before && Copied(before[from + deeper]));
    assert from <= from + deeper;
    if SameTree(before, from, after, from + d) {
      SameTreeAt(before, from, after, from + d, q);
    }
  }
}
