/**
 Container image references: the parser and printer, the parser of the
 name@digest form that runtimes record, and the choice of what to ask the
 registry about.
 */
module ImageRef {
  import opened Wrappers
  import opened Text

  const DOCKER_HUB := "docker.io"

  datatype ImageReference = ImageReference(registry: string, repository: string, tag: string, digest: string)

  datatype RefError = Empty | LeadingDash | BadDigest | BadHost | NoRepository | BadRepository | BadTag

  // ------------------------------------------------------------- the patterns

  predicate LowerAlnum(c: char) {
    'a' <= c <= 'z' || '0' <= c <= '9'
  }

  predicate Alnum(c: char) {
    LowerAlnum(c) || 'A' <= c <= 'Z'
  }

  predicate Separator(c: char) {
    c == '.' || c == '_' || c == '-'
  }

  /** One of [._], __ and [-]+. */
  predicate SeparatorRun(s: string) {
    s == "." || s == "_" || s == "__" || (s != "" && forall i :: 0 <= i < |s| ==> s[i] == '-')
  }

  /** [a-z0-9]+ runs with one separator between two of them: as separators are no alphanumerics, runs are maximal. */
  predicate IsComponent(s: string)
    decreases |s|
  {
    var n := Ahead(s, LowerAlnum, 0);
    var m := Ahead(s, Separator, n);
    n > 0 && (n == |s| || (n < m < |s| && SeparatorRun(s[n..m]) && IsComponent(s[m..])))
  }

  predicate IsRepository(s: string) {
    forall c :: c in Split(s, '/') ==> IsComponent(c)
  }

  predicate TagChar(c: char) {
    Alnum(c) || c == '_' || c == '.' || c == '-'
  }

  predicate IsTag(s: string) {
    0 < |s| <= 128 && (Alnum(s[0]) || s[0] == '_') && forall i :: 0 <= i < |s| ==> TagChar(s[i])
  }

  predicate Hex(c: char) {
    '0' <= c <= '9' || 'a' <= c <= 'f'
  }

  predicate IsDigest(s: string) {
    var n := Ahead(s, LowerAlnum, 0);
    0 < n < |s| && s[n] == ':' && |s| - n - 1 >= 32 && forall i :: n < i < |s| ==> Hex(s[i])
  }

  predicate HostChar(c: char) {
    Alnum(c) || c == '.' || c == ':' || c == '-'
  }

  predicate IsHost(s: string) {
    s != "" && Alnum(s[0]) && forall i :: 0 <= i < |s| ==> HostChar(s[i])
  }

  /** A leading segment is a host only when it holds a dot or a port, or is localhost. */
  predicate LooksLikeHost(s: string) {
    '.' in s || ':' in s || s == "localhost"
  }

  // -------------------------------------------------------- parser and printer

  /** The name in front of a digest, and the digest, which is "" when there is none. */
  function CutDigest(raw: string): (string, Option<string>) {
    CutFirst(Trim(raw), '@')
  }

  function ParseImageReference(raw: string): Result<ImageReference, RefError> {
    var t := Trim(raw);
    if t == "" then Err(Empty)
    else if t[0] == '-' then Err(LeadingDash)
    else
      var (name, digest) := CutDigest(raw);
      match digest
      case None => ParseNamed(name, "")
      case Some(d) => if !IsDigest(d) then Err(BadDigest) else ParseNamed(name, d)
  }

  /** Whether the first segment of a name is a registry host. */
  predicate HasHost(name: string) {
    CutFirst(name, '/').1.Some? && LooksLikeHost(CutFirst(name, '/').0)
  }

  function HostOf(name: string): string {
    if HasHost(name) then CutFirst(name, '/').0 else ""
  }

  /** The name without its registry host. */
  function PathOf(name: string): string {
    if HasHost(name) then CutFirst(name, '/').1.value else name
  }

  function ParseNamed(name: string, digest: string): Result<ImageReference, RefError> {
    if HasHost(name) && !IsHost(HostOf(name)) then Err(BadHost)
    else ParsePath(HostOf(name), PathOf(name), digest)
  }

  predicate IsHub(registry: string) {
    registry == "" || registry == DOCKER_HUB || registry == "index.docker.io"
  }

  function Registry(host: string): string {
    if IsHub(host) then DOCKER_HUB else host
  }

  /** A bare Docker Hub name is in its library. */
  function Repository(host: string, path: string): string {
    if IsHub(host) && '/' !in path then "library/" + path else path
  }

  function ParsePath(host: string, path: string, digest: string): Result<ImageReference, RefError> {
    var (name, cut) := CutLast(path, ':');
    var tag := match cut case None => "" case Some(t) => t;
    var repository := Repository(host, name);
    if name == "" then Err(NoRepository)
    else if !IsRepository(repository) then Err(BadRepository)
    else if tag != "" && !IsTag(tag) then Err(BadTag)
    else Ok(ImageReference(Registry(host), repository, if tag == "" && digest == "" then "latest" else tag, digest))
  }

  /** String renders a reference as a runtime would accept it. */
  function Print(ref: ImageReference): string {
    var out := ref.registry + "/" + ref.repository;
    if ref.digest != "" then out + "@" + ref.digest else out + ":" + ref.tag
  }

  /** What the printed form keeps: a pinned reference loses its tag. */
  function Printed(ref: ImageReference): ImageReference {
    if ref.digest != "" then ref.(tag := "") else ref
  }

  // ------------------------------------------------------------ the digest form

  datatype ImageName = ImageName(registry: string, repository: string, digest: string)

  datatype NameError = NoDigestPart | InvalidDigest

  function ParseImageNameDigest(raw: string): Result<ImageName, NameError> {
    var (name, digest) := CutLast(Trim(raw), '@');
    if digest.None? || name == "" then Err(NoDigestPart)
    else if !IsDigest(digest.value) then Err(InvalidDigest)
    else
      Ok(ImageName(Registry(HostOf(name)), Repository(HostOf(name), PathOf(name)), digest.value))
  }

  predicate SameRepository(name: ImageName, ref: ImageReference) {
    name.registry == ref.registry && name.repository == ref.repository
  }

  // ------------------------------------------------------------ what is parsed

  /** The references the parser can yield. */
  predicate Canonical(ref: ImageReference) {
    && IsHost(ref.registry) && LooksLikeHost(ref.registry) && ref.registry != "index.docker.io"
    && IsRepository(ref.repository) && (ref.registry == DOCKER_HUB ==> '/' in ref.repository)
    && (ref.tag != "" ==> IsTag(ref.tag)) && (ref.digest != "" ==> IsDigest(ref.digest))
    && (ref.tag != "" || ref.digest != "")
  }

  lemma HubIsHost()
    ensures IsHost(DOCKER_HUB) && LooksLikeHost(DOCKER_HUB)
  {
    assert DOCKER_HUB[6] == '.';
  }

  lemma LatestIsTag()
    ensures IsTag("latest")
  {
  }

  lemma PathIsCanonical(host: string, path: string, digest: string)
    requires host == "" || (IsHost(host) && LooksLikeHost(host))
    requires digest == "" || IsDigest(digest)
    requires ParsePath(host, path, digest).Ok?
    ensures Canonical(ParsePath(host, path, digest).value)
  {
    HubIsHost();
    LatestIsTag();
    LibraryHasSlash(CutLast(path, ':').0);
  }

  lemma LibraryHasSlash(name: string)
    ensures '/' in "library/" + name
  {
    assert ("library/" + name)[7] == '/';
  }

  /** Whatever the parser yields is canonical. */
  lemma ParsedIsCanonical(raw: string)
    requires ParseImageReference(raw).Ok?
    ensures Canonical(ParseImageReference(raw).value)
  {
    var (name, digest) := CutDigest(raw);
    PathIsCanonical(HostOf(name), PathOf(name), match digest case None => "" case Some(d) => d);
  }

  predicate RepositoryChar(c: char) {
    LowerAlnum(c) || Separator(c) || c == '/'
  }

  ghost predicate Over(s: string, p: char -> bool) {
    forall i :: 0 <= i < |s| ==> p(s[i])
  }

  lemma {:induction false} ComponentChars(s: string)
    requires IsComponent(s)
    ensures s != "" && Over(s, RepositoryChar) && '/' !in s && LowerAlnum(s[|s| - 1]) && LowerAlnum(s[0])
    decreases |s|
  {
    var n := Ahead(s, LowerAlnum, 0);
    if n < |s| {
      var m := Ahead(s, Separator, n);
      var rest := s[m..];
      ComponentChars(rest);
      assert forall i :: m <= i < |s| ==> s[i] == rest[i - m];
      assert s[|s| - 1] == rest[|rest| - 1];
    }
  }

  lemma RepositoryChars(s: string)
    requires IsRepository(s)
    ensures s != "" && Over(s, RepositoryChar) && LowerAlnum(s[0]) && LowerAlnum(s[|s| - 1])
  {
    hide IsComponent, Split, RepositoryChar;
    var parts := Split(s, '/');
    PartsCover(s, '/');
    assert parts[0] in parts && parts[|parts| - 1] in parts;
    ComponentChars(parts[0]);
    ComponentChars(parts[|parts| - 1]);
    forall i: nat | i < |s|
      ensures RepositoryChar(s[i])
    {
      CharOfPart(s, i);
    }
  }

  lemma CharOfPart(s: string, i: nat)
    requires IsRepository(s) && i < |s|
    ensures RepositoryChar(s[i])
  {
    if s[i] != '/' {
      var j, k := PartHolding(s, '/', i);
      var part := Split(s, '/')[j];
      assert part in Split(s, '/');
      ComponentChars(part);
      assert RepositoryChar(part[k]);
    }
  }

  /** The text starts with its first part and ends with its last. */
  lemma {:induction false} PartsCover(s: string, sep: char)
    ensures var parts := Split(s, sep);
            && (parts[0] != "" ==> s != "" && s[0] == parts[0][0])
            && (parts[|parts| - 1] != "" ==> s != "" && s[|s| - 1] == parts[|parts| - 1][|parts[|parts| - 1]| - 1])
  {
    if s != "" {
      PartsCover(s[1..], sep);
      if s[1..] == "" {
        assert Split(s[1..], sep) == [""];
      }
    }
  }

  /** Every character that is no separator belongs to a part. */
  lemma {:induction false} PartHolding(s: string, sep: char, i: nat) returns (j: nat, k: nat)
    requires i < |s| && s[i] != sep
    ensures j < |Split(s, sep)| && k < |Split(s, sep)[j]| && Split(s, sep)[j][k] == s[i]
  {
    if i == 0 {
      j, k := 0, 0;
    } else {
      j, k := PartHolding(s[1..], sep, i - 1);
      if s[0] == sep {
        j := j + 1;
      } else if j == 0 {
        k := k + 1;
      }
    }
  }

  lemma DigestChars(s: string)
    requires IsDigest(s)
    ensures s != "" && '@' !in s && !IsSpace(s[|s| - 1])
  {
    var n := Ahead(s, LowerAlnum, 0);
    assert Hex(s[|s| - 1]);
    forall i | 0 <= i < |s|
      ensures s[i] != '@'
    {
      assert i < n || i == n || Hex(s[i]);
    }
  }

  // ------------------------------------------------------- printing, then parsing

  lemma HostEdges(s: string)
    requires IsHost(s)
    ensures '/' !in s && '@' !in s && !IsSpace(s[0]) && s[0] != '-'
  {
    assert forall i :: 0 <= i < |s| ==> HostChar(s[i]);
  }

  lemma TagEdges(s: string)
    requires IsTag(s)
    ensures '@' !in s && ':' !in s && !IsSpace(s[|s| - 1])
  {
    assert forall i :: 0 <= i < |s| ==> TagChar(s[i]);
  }

  lemma RepositoryEdges(s: string)
    requires IsRepository(s)
    ensures s != "" && '@' !in s && ':' !in s
  {
    RepositoryChars(s);
    assert forall i :: 0 <= i < |s| ==> RepositoryChar(s[i]);
  }

  /** A host, a slash and a path come apart again. */
  lemma NameComesApart(host: string, path: string)
    requires IsHost(host) && LooksLikeHost(host)
    ensures HostOf(host + "/" + path) == host && PathOf(host + "/" + path) == path && HasHost(host + "/" + path)
  {
    HostEdges(host);
    CutFirstAt(host, '/', path);
  }

  /** The path of a canonical reference, with its tag if it is printed, parses to it. */
  lemma PathParses(ref: ImageReference)
    requires Canonical(ref)
    ensures ref.digest != "" ==> ParsePath(ref.registry, ref.repository, ref.digest) == Ok(Printed(ref))
    ensures ref.digest == "" ==> ParsePath(ref.registry, ref.repository + ":" + ref.tag, "") == Ok(ref)
  {
    RepositoryEdges(ref.repository);
    assert ref.registry != "";
    if ref.digest == "" {
      TagEdges(ref.tag);
      CutLastAt(ref.repository, ':', ref.tag);
    } else {
      assert CutLast(ref.repository, ':') == (ref.repository, None);
    }
  }

  lemma AbsentFromThree(a: string, b: char, d: string, c: char)
    requires c !in a && c !in d && b != c
    ensures c !in a + [b] + d
  {
  }

  lemma TrimOfEdges(a: string, b: string)
    requires a != "" && b != "" && !IsSpace(a[0]) && !IsSpace(b[|b| - 1])
    ensures Trim(a + b) == a + b && (a + b)[0] == a[0]
  {
    assert (a + b)[0] == a[0] && (a + b)[|a + b| - 1] == b[|b| - 1];
    TrimOfTrimmed(a + b);
  }

  lemma PinnedParts(ref: ImageReference)
    requires Canonical(ref) && ref.digest != ""
    ensures var name := ref.registry + "/" + ref.repository;
            && Trim(Print(ref)) == Print(ref) == name + "@" + ref.digest && Print(ref)[0] == ref.registry[0]
            && '@' !in name && '@' !in ref.digest && name != ""
  {
    HostEdges(ref.registry);
    RepositoryEdges(ref.repository);
    DigestChars(ref.digest);
    var name := ref.registry + "/" + ref.repository;
    AbsentFromThree(ref.registry, '/', ref.repository, '@');
    assert name[0] == ref.registry[0];
    assert ("@" + ref.digest)[|ref.digest|] == ref.digest[|ref.digest| - 1];
    TrimOfEdges(name, "@" + ref.digest);
    assert name + "@" + ref.digest == name + ("@" + ref.digest);
  }

  lemma TaggedParts(ref: ImageReference)
    requires Canonical(ref) && ref.digest == ""
    ensures var path := ref.repository + ":" + ref.tag;
            && Trim(Print(ref)) == Print(ref) == ref.registry + "/" + path && Print(ref)[0] == ref.registry[0]
            && '@' !in Print(ref)
  {
    hide IsComponent, Split, Trim;
    HostEdges(ref.registry);
    RepositoryEdges(ref.repository);
    TagEdges(ref.tag);
    var path := ref.repository + ":" + ref.tag;
    AbsentFromThree(ref.repository, ':', ref.tag, '@');
    AbsentFromThree(ref.registry, '/', path, '@');
    assert path[|path| - 1] == ref.tag[|ref.tag| - 1];
    assert ("/" + path)[|path|] == path[|path| - 1];
    TrimOfEdges(ref.registry, "/" + path);
    assert Print(ref) == ref.registry + ("/" + path);
    assert ref.registry + ("/" + path) == ref.registry + "/" + path;
  }

  /** Printing a parsed reference and parsing it gives it back; only the tag of a pinned one is dropped. */
  lemma PrintedParsesBack(ref: ImageReference)
    requires Canonical(ref)
    ensures ParseImageReference(Print(ref)) == Ok(Printed(ref))
  {
    HostEdges(ref.registry);
    PathParses(ref);
    if ref.digest != "" {
      PinnedParts(ref);
      CutFirstAt(ref.registry + "/" + ref.repository, '@', ref.digest);
      NameComesApart(ref.registry, ref.repository);
    } else {
      TaggedParts(ref);
      assert CutFirst(Print(ref), '@') == (Print(ref), None);
      NameComesApart(ref.registry, ref.repository + ":" + ref.tag);
    }
  }

  lemma ParseAfterParse(raw: string)
    requires ParseImageReference(raw).Ok?
    ensures var ref := ParseImageReference(raw).value; ParseImageReference(Print(ref)) == Ok(Printed(ref))
  {
    ParsedIsCanonical(raw);
    PrintedParsesBack(ParseImageReference(raw).value);
  }

  /** The printed form is a fixpoint: parsing and printing it again changes nothing. */
  lemma PrintedFormIsFixed(raw: string)
    requires ParseImageReference(raw).Ok?
    ensures var printed := Print(ParseImageReference(raw).value);
            ParseImageReference(printed).Ok? && Print(ParseImageReference(printed).value) == printed
  {
    ParseAfterParse(raw);
  }

  /** The references that printing and parsing reproduces are the canonical ones with either a tag or a digest. */
  lemma ReproducedExactly(ref: ImageReference)
    ensures ParseImageReference(Print(ref)) == Ok(ref) <==> Canonical(ref) && (ref.digest == "" || ref.tag == "")
  {
    if ParseImageReference(Print(ref)) == Ok(ref) {
      ParsedIsCanonical(Print(ref));
      PrintedParsesBack(ref);
    }
    if Canonical(ref) {
      PrintedParsesBack(ref);
    }
  }

  /** For every pinned printed reference the two parsers agree. */
  lemma ParsersAgreeOnPrinted(ref: ImageReference)
    requires Canonical(ref) && ref.digest != ""
    ensures ParseImageNameDigest(Print(ref)) == Ok(ImageName(ref.registry, ref.repository, ref.digest))
  {
    PinnedParts(ref);
    CutLastAt(ref.registry + "/" + ref.repository, '@', ref.digest);
    NameComesApart(ref.registry, ref.repository);
  }

  /** Whether a raw reference spells a tag (an empty one included). */
  predicate SpellsTag(raw: string) {
    ':' in PathOf(CutDigest(raw).0)
  }

  /**
   On a raw pinned reference they agree exactly when it spells no tag: the
   name@digest parser takes a tag for a part of the repository.
   */
  lemma ParsersAgreeExactly(raw: string)
    requires ParseImageReference(raw).Ok? && ParseImageReference(raw).value.digest != ""
    ensures var ref := ParseImageReference(raw).value;
            ParseImageNameDigest(raw) == Ok(ImageName(ref.registry, ref.repository, ref.digest)) <==> !SpellsTag(raw)
  {
    var name := CutDigest(raw).0;
    PinnedRaw(raw);
    RepositoriesAgree(HostOf(name), PathOf(name), ParseImageReference(raw).value.digest);
  }

  lemma PathKeepsDigest(host: string, path: string, digest: string)
    requires ParsePath(host, path, digest).Ok?
    ensures ParsePath(host, path, digest).value.digest == digest
  {
  }

  lemma ParsedParts(raw: string)
    requires ParseImageReference(raw).Ok?
    ensures var ref, (name, digest) := ParseImageReference(raw).value, CutDigest(raw);
            && ParsePath(HostOf(name), PathOf(name), ref.digest) == Ok(ref)
            && (ref.digest != "" ==> digest == Some(ref.digest) && IsDigest(ref.digest))
  {
    var (name, cut) := CutDigest(raw);
    var digest := match cut case None => "" case Some(d) => d;
    assert ParseImageReference(raw) == ParseNamed(name, digest);
    assert ParseNamed(name, digest) == ParsePath(HostOf(name), PathOf(name), digest);
    PathKeepsDigest(HostOf(name), PathOf(name), digest);
  }

  lemma EmptyNameIsRefused(digest: string)
    ensures ParsePath(HostOf(""), PathOf(""), digest) == Err(NoRepository)
  {
    assert CutFirst("", '/') == ("", None);
    assert CutLast("", ':') == ("", None);
  }

  lemma PinnedRaw(raw: string)
    requires ParseImageReference(raw).Ok? && ParseImageReference(raw).value.digest != ""
    ensures var ref, name := ParseImageReference(raw).value, CutDigest(raw).0;
            && ParsePath(HostOf(name), PathOf(name), ref.digest) == Ok(ref)
            && ParseImageNameDigest(raw)
               == Ok(ImageName(Registry(HostOf(name)), Repository(HostOf(name), PathOf(name)), ref.digest))
  {
    ParsedParts(raw);
    var digest := ParseImageReference(raw).value.digest;
    DigestChars(digest);
    LastIsFirst(Trim(raw), '@');
    EmptyNameIsRefused(digest);
  }

  lemma RepositoriesAgree(host: string, path: string, digest: string)
    requires ParsePath(host, path, digest).Ok?
    ensures ParsePath(host, path, digest).value.registry == Registry(host)
    ensures Repository(host, path) == ParsePath(host, path, digest).value.repository <==> ':' !in path
  {
    var repository := ParsePath(host, path, digest).value.repository;
    RepositoryEdges(repository);
    if ':' in path {
      TaggedPathDiffers(path);
    } else {
      assert CutLast(path, ':') == (path, None);
    }
  }

  lemma TaggedPathDiffers(path: string)
    requires ':' in path
    ensures ':' in "library/" + path
  {
  }

  /** A text with one separator is cut at the same place from both ends. */
  lemma LastIsFirst(s: string, c: char)
    requires CutFirst(s, c).1.Some? && c !in CutFirst(s, c).1.value
    ensures CutLast(s, c) == CutFirst(s, c)
  {
    var (a, b) := CutFirst(s, c);
    assert s == a + [c] + b.value;
    CutLastAt(a, c, b.value);
  }

  lemma LibraryIsComponent()
    ensures IsComponent("library") && '/' !in "library"
  {
    assert Ahead("library", LowerAlnum, 0) == 7;
  }

  lemma LibraryRepository(name: string)
    requires IsComponent(name)
    ensures IsRepository("library/" + name)
  {
    hide IsComponent;
    LibraryIsComponent();
    ComponentChars(name);
    assert "library/" + name == "library" + ['/'] + name;
    SplitConcat("library", name, '/');
    SplitPlain("library", '/');
    SplitPlain(name, '/');
  }

  lemma ComponentEdges(name: string)
    requires IsComponent(name)
    ensures '@' !in name && '/' !in name && ':' !in name && name != "" && name[0] != '-' && Trim(name) == name
  {
    hide Ahead, Trim;
    ComponentChars(name);
    assert forall i :: 0 <= i < |name| ==> RepositoryChar(name[i]);
    TrimOfTrimmed(name);
  }

  /** A bare name is the latest image of Docker Hub's library. */
  lemma BareNameIsLibraryLatest(name: string)
    requires IsComponent(name)
    ensures ParseImageReference(name) == Ok(ImageReference(DOCKER_HUB, "library/" + name, "latest", ""))
  {
    ComponentEdges(name);
    LibraryRepository(name);
    assert CutFirst(name, '@') == (name, None) && CutFirst(name, '/') == (name, None);
    assert CutLast(name, ':') == (name, None);
  }

  /** The first segment of a name is its host exactly when it holds a dot or a colon, or is localhost; a single segment never is. */
  lemma FirstSegmentIsHost(first: string, rest: string)
    requires '/' !in first
    ensures HasHost(first + "/" + rest) <==> '.' in first || ':' in first || first == "localhost"
    ensures HasHost(first + "/" + rest) ==> HostOf(first + "/" + rest) == first && PathOf(first + "/" + rest) == rest
    ensures !HasHost(first)
  {
    CutFirstAt(first, '/', rest);
    assert first + ['/'] + rest == first + "/" + rest;
  }

  /** The characters of the patterns, spelled out. */
  lemma LowerCaseAlphabet(c: char)
    ensures LowerAlnum(c) <==> c in "abcdefghijklmnopqrstuvwxyz0123456789"
  {
  }

  lemma UpperCaseAlphabet(c: char)
    ensures Alnum(c) <==> LowerAlnum(c) || c in "ABCDEFGHIJKLMNOPQRSTUVWXYZ"
  {
  }

  lemma OtherAlphabets(c: char)
    ensures Separator(c) <==> c in "._-"
    ensures Hex(c) <==> c in "0123456789abcdef"
    ensures TagChar(c) <==> Alnum(c) || c in "._-"
    ensures HostChar(c) <==> Alnum(c) || c in ".:-"
  {
  }

  /** Where a word ends, and the separator behind it. */
  lemma WordEnds(word: string, sep: string, rest: string)
    requires Over(word, LowerAlnum) && sep != "" && Over(sep, Separator) && rest != "" && LowerAlnum(rest[0])
    ensures var s, n, m := word + sep + rest, |word|, |word| + |sep|;
            Ahead(s, LowerAlnum, 0) == n && Ahead(s, Separator, n) == m && s[n..m] == sep && s[m..] == rest
  {
    var s, n, m := word + sep + rest, |word|, |word| + |sep|;
    assert forall i :: 0 <= i < n ==> s[i] == word[i];
    assert forall i :: n <= i < m ==> s[i] == sep[i - n];
    assert s[m] == rest[0] && s[n] == sep[0];
    assert s[n..m] == sep && s[m..] == rest;
  }

  /** A word is a component; with a separator and a component behind it, exactly if that is a dot, one or two underscores, or dashes. */
  lemma ComponentsGrow(word: string, sep: string, rest: string)
    requires word != "" && Over(word, LowerAlnum) && sep != "" && Over(sep, Separator) && IsComponent(rest)
    ensures IsComponent(word)
    ensures IsComponent(word + sep + rest) <==> sep in [".", "_", "__"] || forall i :: 0 <= i < |sep| ==> sep[i] == '-'
  {
    assert Ahead(word, LowerAlnum, 0) == |word|;
    ComponentChars(rest);
    WordEnds(word, sep, rest);
  }

  /** A tag has 1 to 128 characters; it may start with an underscore, not with a dot or a dash. */
  lemma TagBounds(s: string)
    ensures IsTag(s) <==> Over(s, TagChar) && 1 <= |s| < 129 && s[0] !in ".-"
  {
    if s != "" && Over(s, TagChar) {
      assert TagChar(s[0]);
    }
  }

  /** A digest is an algorithm in lower case, a colon, and at least 32 hexadecimal digits. */
  lemma DigestBounds(algorithm: string, hex: string)
    requires Over(algorithm, LowerAlnum)
    ensures IsDigest(algorithm + ":" + hex) <==> algorithm != "" && |hex| > 31 && Over(hex, Hex)
  {
    var s, n := algorithm + ":" + hex, |algorithm|;
    assert forall i :: 0 <= i < n ==> s[i] == algorithm[i];
    assert s[n] == ':' && Ahead(s, LowerAlnum, 0) == n;
    assert forall i :: 0 <= i < |hex| ==> s[n + 1 + i] == hex[i];
    assert Over(hex, Hex) <==> forall i :: n < i < |s| ==> Hex(s[i]) by {
      assert forall i :: n < i < |s| ==> s[i] == hex[i - n - 1];
    }
  }

  /** A host starts with a letter or a digit. */
  lemma HostBounds(s: string)
    ensures IsHost(s) <==> Over(s, HostChar) && s != "" && s[0] !in ".:-"
  {
    if s != "" && Over(s, HostChar) {
      assert HostChar(s[0]);
    }
  }

  /** Every alias of Docker Hub is Docker Hub, and any other host is itself. */
  lemma HubAliases(host: string)
    ensures Registry(host) == if host in ["", "docker.io", "index.docker.io"] then "docker.io" else host
  {
  }

  // --------------------------------------------------------- the update query

  datatype QueryError = NothingRecorded | KnownAs(names: seq<ImageName>)

  /** The names among the recorded digests that parse, in order. */
  function Recorded(digests: seq<string>): seq<ImageName> {
    if digests == [] then []
    else
      var last := ParseImageNameDigest(digests[|digests| - 1]);
      Recorded(digests[..|digests| - 1]) + match last case Ok(n) => [n] case Err(_) => []
  }

  /** What is asked: the recorded repository, the reference's tag. */
  function QueryFor(name: ImageName, ref: ImageReference): ImageReference {
    ImageReference(name.registry, name.repository, if ref.tag == "" then "latest" else ref.tag, "")
  }

  predicate OfRepository(name: ImageName, ref: ImageReference) {
    name.registry == ref.registry && name.repository == ref.repository
  }

  /** The query is about the recorded name, under the reference's own tag, and "latest" only when it has none. */
  predicate Asked(name: ImageName, ref: ImageReference, query: ImageReference, digest: string) {
    && query.registry == name.registry && query.repository == name.repository && digest == name.digest
    && query.tag == (if ref.tag != "" then ref.tag else "latest") && query.digest == ""
  }

  /** The first of the names that is of the reference's repository. */
  ghost predicate IsFirstSame(names: seq<ImageName>, ref: ImageReference, i: nat) {
    i < |names| && SameRepository(names[i], ref) && forall j :: 0 <= j < i ==> !SameRepository(names[j], ref)
  }

  ghost predicate NoneSame(names: seq<ImageName>, ref: ImageReference) {
    forall n :: n in names ==> !SameRepository(n, ref)
  }

  /** The first name of the same repository, else the only one there is, else a refusal. */
  ghost predicate Resolves(names: seq<ImageName>, ref: ImageReference, r: Result<(ImageReference, string), QueryError>) {
    if NoneSame(names, ref) then
      r == match |names|
           case 0 => Err(NothingRecorded)
           case 1 => Ok((QueryFor(names[0], ref), names[0].digest))
           case _ => Err(KnownAs(names))
    else
      exists i: nat :: IsFirstSame(names, ref, i) && r == Ok((QueryFor(names[i], ref), names[i].digest))
  }

  /** Told of the names alone: it is asked about a name of the same repository, or about the only name; refused when there is neither. */
  ghost predicate AnswersFor(names: seq<ImageName>, ref: ImageReference, r: Result<(ImageReference, string), QueryError>) {
    match r
    case Ok(answer) =>
      exists n :: && n in names && Asked(n, ref, answer.0, answer.1)
                  && (OfRepository(n, ref) || (names == [n] && !OfRepository(n, ref)))
    case Err(_) => |names| != 1 && forall n :: n in names ==> !OfRepository(n, ref)
  }

  lemma ResolvedAnswers(names: seq<ImageName>, ref: ImageReference, r: Result<(ImageReference, string), QueryError>)
    requires Resolves(names, ref, r)
    ensures AnswersFor(names, ref, r)
  {
    if NoneSame(names, ref) {
      if |names| == 1 {
        assert names == [names[0]] && Asked(names[0], ref, r.value.0, r.value.1);
      }
    } else {
      var i: nat :| IsFirstSame(names, ref, i) && r == Ok((QueryFor(names[i], ref), names[i].digest));
      assert names[i] in names && Asked(names[i], ref, r.value.0, r.value.1);
    }
  }

  /** The first recorded digest of the same repository, else the only one there is, else a refusal. */
  method ResolveUpdateQuery(ref: ImageReference, digests: seq<string>)
    returns (r: Result<(ImageReference, string), QueryError>)
    ensures Resolves(Recorded(digests), ref, r) && AnswersFor(Recorded(digests), ref, r)
  {
    hide AnswersFor, QueryFor;
    var names: seq<ImageName> := [];
    var i := 0;
    while i < |digests|
      invariant 0 <= i <= |digests|
      invariant names == Recorded(digests[..i]) && NoneSame(names, ref)
    {
      var parsed, next := ParseImageNameDigest(digests[i]), i + 1;
      RecordedGrows(digests, i);
      if parsed.Ok? {
        if SameRepository(parsed.value, ref) {
          FoundFirst(digests, i, names, parsed.value, ref);
          r := Ok((QueryFor(parsed.value, ref), parsed.value.digest));
          ResolvedAnswers(Recorded(digests), ref, r);
          return;
        }
        names := names + [parsed.value];
      }
      i := next;
    }
    assert digests[..i] == digests;
    match |names| {
      case 0 => r := Err(NothingRecorded);
      case 1 => r := Ok((QueryFor(names[0], ref), names[0].digest));
      case _ => r := Err(KnownAs(names));
    }
    ResolvedAnswers(Recorded(digests), ref, r);
  }

  lemma RecordedGrows(digests: seq<string>, i: nat)
    requires i < |digests|
    ensures Recorded(digests[..i + 1])
            == Recorded(digests[..i]) + match ParseImageNameDigest(digests[i]) case Ok(n) => [n] case Err(_) => []
  {
    assert digests[..i + 1][..i] == digests[..i];
  }

  lemma {:induction false} RecordedPrefix(digests: seq<string>, i: nat)
    requires i <= |digests|
    ensures Recorded(digests[..i]) <= Recorded(digests)
    decreases |digests| - i
  {
    if i < |digests| {
      RecordedGrows(digests, i);
      RecordedPrefix(digests, i + 1);
    } else {
      assert digests[..i] == digests;
    }
  }

  lemma FoundFirst(digests: seq<string>, i: nat, names: seq<ImageName>, name: ImageName, ref: ImageReference)
    requires i < |digests| && Recorded(digests[..i + 1]) == names + [name]
    requires NoneSame(names, ref) && SameRepository(name, ref)
    ensures IsFirstSame(Recorded(digests), ref, |names|) && Recorded(digests)[|names|] == name
    ensures !NoneSame(Recorded(digests), ref)
  {
    RecordedPrefix(digests, i + 1);
    FirstOfLonger(names, name, Recorded(digests), ref);
  }

  lemma FirstOfLonger(names: seq<ImageName>, name: ImageName, all: seq<ImageName>, ref: ImageReference)
    requires names + [name] <= all && NoneSame(names, ref) && SameRepository(name, ref)
    ensures IsFirstSame(all, ref, |names|) && all[|names|] == name && !NoneSame(all, ref)
  {
    var some := names + [name];
    assert some[|names|] == name && all[|names|] == some[|names|];
    assert all[|names|] in all;
    forall j | 0 <= j < |names|
      ensures !SameRepository(all[j], ref)
    {
      assert all[j] == some[j] && names[j] in names;
    }
  }

  lemma {:induction false} RecordedHolds(digests: seq<string>, i: nat, name: ImageName)
    requires i < |digests| && ParseImageNameDigest(digests[i]) == Ok(name)
    ensures name in Recorded(digests)
  {
    RecordedGrows(digests, i);
    RecordedPrefix(digests, i + 1);
    var some := Recorded(digests[..i + 1]);
    assert some[|some| - 1] == name;
  }

  /**
   When the runtime recorded the image in the form the daemon itself prints, some
   name is of the same repository, so the query is about the reference's own.
   */
  lemma PrintedPullIsRecognised(ref: ImageReference, digest: string, digests: seq<string>)
    requires Canonical(ref) && IsDigest(digest) && Print(ref.(digest := digest)) in digests
    ensures !NoneSame(Recorded(digests), ref)
  {
    var pinned := ref.(digest := digest);
    DigestChars(digest);
    ParsersAgreeOnPrinted(pinned);
    var i: nat :| i < |digests| && digests[i] == Print(pinned);
    RecordedHolds(digests, i, ImageName(ref.registry, ref.repository, digest));
  }

  /** A query about the reference's own repository is a reference the parser accepts, and prints as itself. */
  lemma OwnQueryParses(name: ImageName, ref: ImageReference)
    requires Canonical(ref) && SameRepository(name, ref)
    ensures Canonical(QueryFor(name, ref)) && ParseImageReference(Print(QueryFor(name, ref))) == Ok(QueryFor(name, ref))
  {
    LatestIsTag();
    PrintedParsesBack(QueryFor(name, ref));
  }
}
