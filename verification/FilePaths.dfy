/**
 Request paths of the file API: cleaned, resolved against the configured roots,
 read in windows, and listed up to a cap.
 */
module FilePaths {
  import opened Wrappers
  import opened Sequences
  import opened Text

  // -------------------------------------------------------------- clean paths

  /** A path component that names something. */
  predicate Plain(c: string) {
    c != "" && c != "." && c != ".." && '/' !in c
  }

  predicate AllPlain(cs: seq<string>) {
    forall c :: c in cs ==> Plain(c)
  }

  /** Walks the parts from a directory: "" and "." stay, ".." goes up (the top is its own parent). */
  function Walk(from: seq<string>, parts: seq<string>): (r: seq<string>)
    requires AllPlain(from) && Free(parts, '/')
    ensures AllPlain(r)
    decreases |parts|
  {
    if parts == [] then from
    else if parts[0] == "" || parts[0] == "." then Walk(from, parts[1..])
    else if parts[0] == ".." then Walk(if from == [] then [] else from[..|from| - 1], parts[1..])
    else Walk(from + [parts[0]], parts[1..])
  }

  /** The components of an absolute path, cleaned. */
  function Components(path: string): (r: seq<string>)
    ensures AllPlain(r)
  {
    Walk([], Split(path, '/'))
  }

  function Slashed(cs: seq<string>): string {
    if cs == [] then "" else "/" + cs[0] + Slashed(cs[1..])
  }

  function Render(cs: seq<string>): string {
    if cs == [] then "/" else Slashed(cs)
  }

  /** filepath.Clean on an absolute path. */
  function Clean(path: string): string {
    Render(Components(path))
  }

  predicate IsAbs(path: string) {
    path != "" && path[0] == '/'
  }

  /** filepath.Join below an absolute directory. */
  function Join(directory: string, rel: string): string {
    Clean(directory + "/" + rel)
  }

  lemma {:induction false} WalkConcat(from: seq<string>, a: seq<string>, b: seq<string>)
    requires AllPlain(from)
    requires Free(a, '/') && Free(b, '/')
    ensures Free(a + b, '/')
    ensures Walk(from, a + b) == Walk(Walk(from, a), b)
    decreases |a|
  {
    if a == [] {
      assert a + b == b;
    } else {
      assert (a + b)[1..] == a[1..] + b;
      var next := if a[0] == "" || a[0] == "." then from
                  else if a[0] == ".." then (if from == [] then [] else from[..|from| - 1])
                  else from + [a[0]];
      WalkConcat(next, a[1..], b);
    }
  }

  /** Walking down plain components appends them. */
  lemma {:induction false} WalkPlain(from: seq<string>, cs: seq<string>)
    requires AllPlain(from) && AllPlain(cs)
    ensures Walk(from, cs) == from + cs
    decreases |cs|
  {
    if cs == [] {
      assert from + cs == from;
    } else {
      assert Plain(cs[0]);
      WalkPlain(from + [cs[0]], cs[1..]);
      assert from + [cs[0]] + cs[1..] == from + cs;
    }
  }

  lemma {:induction false} SlashedConcat(a: seq<string>, b: seq<string>)
    ensures Slashed(a + b) == Slashed(a) + Slashed(b)
  {
    if a == [] {
      assert a + b == b;
    } else {
      assert (a + b)[1..] == a[1..] + b;
      SlashedConcat(a[1..], b);
    }
  }

  /** The parts of a rendered component list are the components, after an empty first part. */
  lemma {:induction false} SplitSlashed(cs: seq<string>)
    requires AllPlain(cs)
    ensures Split(Slashed(cs), '/') == [""] + cs
  {
    if cs == [] {
      assert Split("", '/') == [""];
    } else {
      var init, last := cs[..|cs| - 1], cs[|cs| - 1];
      SplitSlashed(init);
      SlashedConcat(init, [last]);
      assert cs == init + [last];
      assert Slashed([last]) == "/" + last + Slashed([]);
      assert Slashed(cs) == Slashed(init) + "/" + last;
      SplitConcat(Slashed(init), last, '/');
      assert Plain(last);
      SplitPlain(last, '/');
    }
  }

  /** Rendering plain components and reading them back gives them again. */
  lemma ComponentsOfRender(cs: seq<string>)
    requires AllPlain(cs)
    ensures Components(Render(cs)) == cs
  {
    if cs == [] {
      assert Split("/"[1..], '/') == [""];
      assert Split("/", '/') == ["", ""];
      assert ["", ""][1..] == [""] && [""][1..] == [];
    } else {
      SplitSlashed(cs);
      assert ([""] + cs)[1..] == cs;
      WalkPlain([], cs);
    }
  }

  /** Cleaning twice is cleaning once, and a clean path never climbs. */
  lemma CleanIdempotent(path: string)
    ensures Clean(Clean(path)) == Clean(path)
    ensures Components(Clean(path)) == Components(path)
    ensures IsAbs(Clean(path))
  {
    ComponentsOfRender(Components(path));
  }

  // ------------------------------------------------------------- containment

  predicate PathInside(root: string, target: string) {
    target == root || root == "/" || HasPrefix(target, root + "/")
  }

  lemma FirstSlash(a: string, b: string, s: string, t: string)
    requires '/' !in a && '/' !in b
    requires s != "" && s[0] == '/'
    requires t == "" || t[0] == '/'
    requires HasPrefix(b + t, a + s)
    ensures a == b
  {
    SlashAfter(a, s);
    SlashAfter(b, t);
    SlashOfPrefix(b + t, a + s);
    assert (b + t)[..|a|] == (a + s)[..|a|];
  }

  /** Where the first slash is, or the length when there is none. */
  function SlashAt(s: string): nat {
    if s == "" || s[0] == '/' then 0 else 1 + SlashAt(s[1..])
  }

  lemma {:induction false} SlashAfter(a: string, s: string)
    requires '/' !in a && (s == "" || s[0] == '/')
    ensures SlashAt(a + s) == |a|
  {
    if a == "" {
      assert a + s == s;
    } else {
      assert (a + s)[1..] == a[1..] + s;
      SlashAfter(a[1..], s);
    }
  }

  lemma {:induction false} SlashOfPrefix(x: string, y: string)
    requires HasPrefix(x, y) && SlashAt(y) < |y|
    ensures SlashAt(x) == SlashAt(y)
  {
    assert x[0] == x[..|y|][0];
    if y[0] != '/' {
      assert x[1..][..|y| - 1] == x[..|y|][1..];
      SlashOfPrefix(x[1..], y[1..]);
    }
  }

  lemma {:induction false} PrefixOfSlashed(r: seq<string>, t: seq<string>)
    requires AllPlain(r) && AllPlain(t)
    ensures HasPrefix(Slashed(t), Slashed(r) + "/") <==> |r| < |t| && r <= t
    decreases |r|
  {
    if r == [] {
      assert Slashed(r) + "/" == "/";
      if t != [] {
        assert Slashed(t)[..1] == "/";
      }
    } else if t != [] {
      var rest := Slashed(r[1..]) + "/";
      assert Slashed(r) + "/" == "/" + (r[0] + rest);
      assert Slashed(t) == "/" + (t[0] + Slashed(t[1..]));
      assert Plain(r[0]) && Plain(t[0]);
      PrefixOfSlashed(r[1..], t[1..]);
      PrefixAfter("/", t[0] + Slashed(t[1..]), r[0] + rest);
      if HasPrefix(t[0] + Slashed(t[1..]), r[0] + rest) {
        assert rest != "" && rest[0] == '/';
        FirstSlash(r[0], t[0], rest, Slashed(t[1..]));
      }
      if r[0] == t[0] {
        PrefixAfter(r[0], Slashed(t[1..]), rest);
        assert r <= t <==> r[1..] <= t[1..] by {
          assert r == [r[0]] + r[1..] && t == [t[0]] + t[1..];
        }
      }
    }
  }

  lemma PrefixAfter(p: string, a: string, b: string)
    ensures HasPrefix(p + a, p + b) <==> HasPrefix(a, b)
  {
    if |b| <= |a| {
      assert (p + a)[..|p + b|] == p + a[..|b|];
      assert (p + b)[|p|..] == b && (p + a[..|b|])[|p|..] == a[..|b|];
    }
  }

  /** The prefix test on clean paths is containment of components, with no false friends like /ab in /a. */
  lemma PathInsideIsContainment(root: string, target: string)
    ensures PathInside(Clean(root), Clean(target)) <==> Components(root) <= Components(target)
  {
    var r, t := Components(root), Components(target);
    ComponentsOfRender(r);
    ComponentsOfRender(t);
    if r != [] {
      assert Plain(r[0]);
      PrefixOfSlashed(r, t);
      assert r <= t <==> r == t || (|r| < |t| && r <= t);
    }
  }

  // ----------------------------------------------------------------- resolving

  /** A configured root: a cleaned directory and how writes to it are authorized. */
  datatype Root = Root(path: string, privileged: bool, profile: string)

  datatype Target = Target(rootPath: string, rel: string, path: string, privileged: bool, profile: string)

  datatype ResolveError = HasNul | NotAbsolute | OutsideRoots

  predicate CleanRoots(roots: seq<Root>) {
    forall r :: r in roots ==> r.path == Clean(r.path)
  }

  /** The policy of the configured roots, which are absolute directories: each one cleaned. */
  function PolicyRoots(raw: seq<Root>): (r: seq<Root>)
    ensures CleanRoots(r) && |r| == |raw|
    ensures forall i :: 0 <= i < |r| ==> r[i] == raw[i].(path := Clean(raw[i].path))
  {
    if raw == [] then []
    else
      CleanIdempotent(raw[0].path);
      [raw[0].(path := Clean(raw[0].path))] + PolicyRoots(raw[1..])
  }

  /** i is the first of the longest among the first n roots that contain the path. */
  ghost predicate Best(roots: seq<Root>, n: nat, path: string, i: nat) {
    && i < n <= |roots| && PathInside(roots[i].path, path)
    && (forall j :: 0 <= j < n && PathInside(roots[j].path, path) ==> |roots[j].path| <= |roots[i].path|)
    && (forall j :: 0 <= j < i && PathInside(roots[j].path, path) ==> |roots[j].path| < |roots[i].path|)
  }

  /** What the resolved target is, for the root it was resolved against. */
  function TargetIn(root: Root, path: string): Target {
    var rel := TrimPrefix(TrimPrefix(path, root.path), "/");
    Target(root.path, if rel == "" then "." else rel, path, root.privileged, root.profile)
  }

  method Resolve(roots: seq<Root>, raw: string) returns (r: Result<Target, ResolveError>)
    ensures r == Err(HasNul) <==> '\0' in raw
    ensures r == Err(NotAbsolute) <==> '\0' !in raw && !IsAbs(raw)
    ensures r == Err(OutsideRoots) ==> forall q :: q in roots ==> !PathInside(q.path, Clean(raw))
    ensures r.Ok? ==> exists i: nat :: Best(roots, |roots|, Clean(raw), i) && r.value == TargetIn(roots[i], Clean(raw))
  {
    if '\0' in raw {
      return Err(HasNul);
    }
    if !IsAbs(raw) {
      return Err(NotAbsolute);
    }
    var clean := Clean(raw);
    var best: int := -1;
    var i := 0;
    while i < |roots|
      invariant 0 <= i <= |roots| && -1 <= best < i
      invariant best == -1 ==> forall j :: 0 <= j < i ==> !PathInside(roots[j].path, clean)
      invariant best >= 0 ==> Best(roots, i, clean, best)
    {
      if PathInside(roots[i].path, clean) {
        if best == -1 || |roots[i].path| > |roots[best].path| {
          best := i;
        }
      }
      i := i + 1;
    }
    if best == -1 {
      return Err(OutsideRoots);
    }
    r := Ok(TargetIn(roots[best], clean));
  }

  function Relative(cs: seq<string>): string {
    if cs == [] then "." else Slashed(cs)[1..]
  }

  /** One more part: it names a child, climbs (not above the top), or stays. */
  lemma OnePartMore(path: string, part: string)
    requires '/' !in part
    ensures var up := Components(path);
            Components(path + "/" + part)
            == if part == "" || part == "." then up
               else if part != ".." then up + [part]
               else if up == [] then [] else up[..|up| - 1]
  {
    JoinedComponents(path, part);
    SplitPlain(part, '/');
    assert [part][1..] == [];
  }

  /** The empty path, below which all others lie, has no components. */
  lemma NoParts()
    ensures Components("") == [] && Clean("/") == "/"
  {
    assert Split("", '/') == [""] && [""][1..] == [];
    ComponentsOfRender([]);
  }

  /** A resolved target lies in its root, and rejoining the root and the relative path gives the cleaned path. */
  lemma ResolvedTargetRejoins(root: Root, raw: string)
    requires root.path == Clean(root.path)
    requires PathInside(root.path, Clean(raw))
    ensures var t := TargetIn(root, Clean(raw));
            && Components(root.path) <= Components(raw)
            && t.path == Clean(raw) && t.rootPath == root.path
            && t.privileged == root.privileged && t.profile == root.profile
            && t.rel == Relative(Components(raw)[|Components(root.path)|..])
            && Join(t.rootPath, t.rel) == Clean(raw)
  {
    PathInsideIsContainment(root.path, raw);
    RelativeIs(root, raw);
    RelativeRejoins(root.path, raw);
  }

  lemma RelativeRejoins(directory: string, raw: string)
    requires Components(directory) <= Components(raw)
    ensures Join(directory, Relative(Components(raw)[|Components(directory)|..])) == Clean(raw)
  {
    var r, t := Components(directory), Components(raw);
    var rest := t[|r|..];
    assert t == r + rest;
    JoinedComponents(directory, Relative(rest));
    RelativeWalks(r, rest);
  }

  /** Joining walks down from the directory. */
  lemma JoinedComponents(directory: string, rel: string)
    ensures Components(directory + "/" + rel) == Walk(Components(directory), Split(rel, '/'))
  {
    SplitConcat(directory, rel, '/');
    WalkConcat([], Split(directory, '/'), Split(rel, '/'));
  }

  lemma RelativeIs(root: Root, raw: string)
    requires root.path == Clean(root.path)
    requires Components(root.path) <= Components(raw)
    ensures TargetIn(root, Clean(raw)).rel == Relative(Components(raw)[|Components(root.path)|..])
  {
    var r, t := Components(root.path), Components(raw);
    var rest := t[|r|..];
    assert t == r + rest;
    SlashedConcat(r, rest);
    var path := Clean(raw);
    if r == [] {
      assert root.path == "/";
      assert rest == t;
      if t == [] {
        assert TrimPrefix(path, "/") == "";
      } else {
        assert path == Slashed(t) && path[..1] == "/";
        assert Plain(t[0]);
        assert path[1] == t[0][0] != '/';
      }
    } else {
      assert path == root.path + Slashed(rest);
      assert TrimPrefix(path, root.path) == Slashed(rest);
      if rest != [] {
        assert Slashed(rest)[..1] == "/";
        assert Plain(rest[0]);
      }
    }
  }

  lemma RelativeWalks(from: seq<string>, cs: seq<string>)
    requires AllPlain(from) && AllPlain(cs)
    ensures Walk(from, Split(Relative(cs), '/')) == from + cs
  {
    if cs == [] {
      SplitPlain(".", '/');
      assert Walk(from, ["."]) == Walk(from, ["."][1..]);
      assert from + cs == from;
    } else {
      SplitSlashed(cs);
      assert Slashed(cs) == "/" + Relative(cs);
      assert "" + "/" + Relative(cs) == Slashed(cs);
      SplitConcat("", Relative(cs), '/');
      assert Split("", '/') == [""];
      assert Split(Relative(cs), '/') == ([""] + Split(Relative(cs), '/'))[1..] == cs;
      WalkPlain(from, cs);
    }
  }

  // ------------------------------------------------------------------- windows

  datatype ReadError = OffsetOutside | NegativeLimit | LimitTooLarge | FileTooLarge

  /** How many bytes a read covers; without a limit, a file larger than the cap is refused, not cut short. */
  function Window(size: nat, offset: int, limit: int, maxRead: nat): (r: Result<nat, ReadError>)
    ensures r.Ok? <==> 0 <= offset <= size && 0 <= limit <= maxRead && (limit == 0 ==> size - offset <= maxRead)
    ensures r.Ok? ==> offset + r.value <= size && r.value <= maxRead
    ensures r.Ok? ==> r.value == if limit == 0 then size - offset else Min(limit, size - offset)
  {
    if offset < 0 || offset > size then Err(OffsetOutside)
    else if limit < 0 then Err(NegativeLimit)
    else if limit > maxRead then Err(LimitTooLarge)
    else
      var remaining := size - offset;
      if limit == 0 && remaining > maxRead then Err(FileTooLarge)
      else if limit == 0 || limit > remaining then Ok(remaining)
      else Ok(limit)
  }

  function Read(file: seq<byte>, offset: int, limit: int, maxRead: nat): (r: Result<seq<byte>, ReadError>)
    ensures r.Ok? <==> Window(|file|, offset, limit, maxRead).Ok?
    ensures r.Ok? ==> 0 <= offset && offset + |r.value| <= |file| && r.value == file[offset..offset + |r.value|]
  {
    match Window(|file|, offset, limit, maxRead)
    case Err(e) => Err(e)
    case Ok(n) => Ok(file[offset..offset + n])
  }

  /**
   A client that pages: it asks for the next window at the offset it has reached
   until it has all bytes. It needs no more pages than the file has windows.
   */
  method ReadInPages(file: seq<byte>, limit: nat, maxRead: nat) returns (content: seq<byte>, pages: nat)
    requires 0 < limit <= maxRead
    ensures content == file
    ensures pages * limit >= |file| && (pages > 0 ==> (pages - 1) * limit < |file|)
  {
    content, pages := [], 0;
    while |content| < |file|
      invariant |content| <= |file| && content == file[..|content|]
      invariant |content| == Min(pages * limit, |file|)
      invariant pages > 0 ==> (pages - 1) * limit < |file|
      decreases |file| - |content|
    {
      var page := Read(file, |content|, limit, maxRead);
      assert |page.value| == Min(limit, |file| - |content|);
      assert (pages + 1) * limit == pages * limit + limit;
      content := content + page.value;
      pages := pages + 1;
    }
  }

  // ------------------------------------------------------------------ listings

  const BATCH: nat := 256

  /** An open directory; each read returns some of the entries that remain, and none at its end. */
  class Directory {
    var rest: seq<string>

    constructor (entries: seq<string>)
      ensures rest == entries
    {
      rest := entries;
    }

    method ReadDir(n: nat) returns (batch: seq<string>, failed: bool)
      requires n > 0
      modifies this
      ensures |batch| <= n && batch + rest == old(rest)
      ensures !failed && old(rest) != [] ==> batch != []
    {
      failed := *;
      var k: nat :| k <= n && k <= |rest| && (!failed && rest != [] ==> k > 0) by {
        assert (if rest == [] then 0 else 1) <= n;
      }
      batch, rest := rest[..k], rest[k..];
    }
  }

  /** At most `limit` entries, and whether there were more; one entry beyond the limit is read to tell. */
  method ReadDirLimited(dir: Directory, limit: nat) returns (r: Option<(seq<string>, bool)>)
    modifies dir
    ensures r.Some? ==> r.value == (old(dir.rest)[..Min(limit, |old(dir.rest)|)], |old(dir.rest)| > limit)
  {
    var entries: seq<string> := [];
    ghost var all := dir.rest;
    while |entries| <= limit
      invariant |entries| <= limit + 1 && entries + dir.rest == all
      decreases limit + 1 - |entries|
    {
      var n := Min(BATCH, limit + 1 - |entries|);
      var batch, failed := dir.ReadDir(n);
      entries := entries + batch;
      if failed {
        return None;
      }
      if |batch| == 0 {
        assert entries == all;
        break;
      }
    }
    if |entries| > limit {
      assert entries[..limit] == all[..limit];
      return Some((entries[..limit], true));
    }
    assert all[..|all|] == all;
    return Some((entries, false));
  }
}
