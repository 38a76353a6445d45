/** The string operations the source takes from Go's strings package. */
module Text {
  import opened Wrappers

  /** Go's unicode.IsSpace, which strings.TrimSpace uses. */
  predicate IsSpace(c: char) {
    c == ' ' || c == '\t' || c == '\n' || c == '\r' || c as int == 0x0B || c as int == 0x0C ||
    c as int == 0x85 || c as int == 0xA0 || c as int == 0x1680 || 0x2000 <= c as int <= 0x200A ||
    c as int == 0x2028 || c as int == 0x2029 || c as int == 0x202F || c as int == 0x205F || c as int == 0x3000
  }

  /** The same characters, one by one. */
  lemma SpacesAre(c: char)
    ensures IsSpace(c) <==> c as int in {9, 10, 11, 12, 13, 32, 133, 160, 5760, 8192, 8193, 8194, 8195, 8196, 8197, 8198, 8199,
                                         8200, 8201, 8202, 8232, 8233, 8239, 8287, 12288}
  {
  }

  /** The first index from i on where p fails, or the length. */
  function Ahead(s: string, p: char -> bool, i: nat): (r: nat)
    requires i <= |s|
    ensures i <= r <= |s| && (r < |s| ==> !p(s[r]))
    ensures forall j :: i <= j < r ==> p(s[j])
    decreases |s| - i
  {
    if i < |s| && p(s[i]) then Ahead(s, p, i + 1) else i
  }

  /** Where the characters before n that satisfy p begin. */
  function Behind(s: string, p: char -> bool, n: nat): (r: nat)
    requires n <= |s|
    ensures r <= n && (r > 0 ==> !p(s[r - 1]))
    ensures forall j :: r <= j < n ==> p(s[j])
  {
    if n > 0 && p(s[n - 1]) then Behind(s, p, n - 1) else n
  }

  /** s without the characters satisfying p at its ends. */
  function TrimBy(s: string, p: char -> bool): (r: string)
    ensures r != "" ==> !p(r[0]) && !p(r[|r| - 1])
    ensures |r| <= |s|
  {
    var from := Ahead(s, p, 0);
    var to := Behind(s, p, |s|);
    if from < to then s[from..to] else ""
  }

  /** strings.TrimSpace. */
  function Trim(s: string): (r: string)
    ensures r != "" ==> !IsSpace(r[0]) && !IsSpace(r[|r| - 1])
    ensures |r| <= |s|
  {
    TrimBy(s, IsSpace)
  }

  /** What lies between two ends of trimmed characters is what trimming leaves. */
  lemma TrimByIs(s: string, p: char -> bool, from: nat, to: nat)
    requires from < to <= |s| && !p(s[from]) && !p(s[to - 1])
    requires forall i :: 0 <= i < from || to <= i < |s| ==> p(s[i])
    ensures TrimBy(s, p) == s[from..to]
  {
  }

  /** strings.IndexByte from i on, with the length for an absent byte. */
  function IndexFrom(s: string, c: char, i: nat): (r: nat)
    requires i <= |s|
    ensures i <= r <= |s| && (r < |s| ==> s[r] == c)
    ensures forall j :: i <= j < r ==> s[j] != c
    decreases |s| - i
  {
    if i == |s| || s[i] == c then i else IndexFrom(s, c, i + 1)
  }

  /** What is before and after the first c, if there is one. */
  function CutFirst(s: string, c: char): (r: (string, Option<string>))
    ensures c !in r.0 && (r.1.None? <==> c !in s)
  {
    var i := IndexFrom(s, c, 0);
    if i < |s| then (s[..i], Some(s[i + 1..])) else (s, None)
  }

  /** strings.LastIndexByte before n, plus one; 0 for an absent byte. */
  function AfterLast(s: string, c: char, n: nat): (r: nat)
    requires n <= |s|
    ensures r <= n && (r > 0 ==> s[r - 1] == c)
    ensures forall j :: r <= j < n ==> s[j] != c
  {
    if n == 0 || s[n - 1] == c then n else AfterLast(s, c, n - 1)
  }

  /** What is before and after the last c, if there is one. */
  function CutLast(s: string, c: char): (r: (string, Option<string>))
    ensures r.1.None? ==> c !in s && r.0 == s
    ensures r.1.Some? ==> c !in r.1.value && s == r.0 + [c] + r.1.value
  {
    var i := AfterLast(s, c, |s|);
    if i > 0 then (s[..i - 1], Some(s[i..])) else (s, None)
  }

  lemma CutFirstAt(a: string, c: char, b: string)
    requires c !in a
    ensures CutFirst(a + [c] + b, c) == (a, Some(b))
  {
    var s := a + [c] + b;
    assert s[|a|] == c && forall j :: 0 <= j < |a| ==> s[j] == a[j];
    assert IndexFrom(s, c, 0) == |a|;
    assert s[..|a|] == a && s[|a| + 1..] == b;
  }

  lemma CutLastAt(a: string, c: char, b: string)
    requires c !in b
    ensures CutLast(a + [c] + b, c) == (a, Some(b))
  {
    var s := a + [c] + b;
    assert s[|a|] == c && forall j :: |a| < j < |s| ==> s[j] == b[j - |a| - 1];
    assert AfterLast(s, c, |s|) == |a| + 1;
    assert s[..|a|] == a && s[|a| + 1..] == b;
  }

  predicate HasPrefix(s: string, p: string) {
    |p| <= |s| && s[..|p|] == p
  }

  /** strings.TrimPrefix. */
  function TrimPrefix(s: string, p: string): string {
    if HasPrefix(s, p) then s[|p|..] else s
  }

  /** A string that neither starts nor ends with a space is its own trim. */
  lemma TrimOfTrimmed(s: string)
    requires s != "" ==> !IsSpace(s[0]) && !IsSpace(s[|s| - 1])
    ensures Trim(s) == s
  {
    if s != "" {
      TrimByIs(s, IsSpace, 0, |s|);
    }
  }

  /** strings.Split on one character: the parts between separators; there is always at least one. */
  function Split(s: string, sep: char): (r: seq<string>)
    ensures |r| > 0 && Free(r, sep)
  {
    if s == "" then [""]
    else
      var rest := Split(s[1..], sep);
      if s[0] == sep then [""] + rest
      else Prepend(s[0], rest)
  }

  predicate Free(parts: seq<string>, sep: char) {
    forall p :: p in parts ==> sep !in p
  }

  /** strings.Join with one character. */
  function Joined(parts: seq<string>, sep: char): string {
    if parts == [] then ""
    else if |parts| == 1 then parts[0]
    else parts[0] + [sep] + Joined(parts[1..], sep)
  }

  /** A character put in front of the first part. */
  function Prepend(c: char, parts: seq<string>): seq<string>
    requires |parts| > 0
  {
    [[c] + parts[0]] + parts[1..]
  }

  lemma PrependConcat(c: char, a: seq<string>, b: seq<string>)
    requires |a| > 0
    ensures Prepend(c, a + b) == Prepend(c, a) + b
  {
  }

  lemma {:induction false} SplitConcat(a: string, b: string, sep: char)
    ensures Split(a + [sep] + b, sep) == Split(a, sep) + Split(b, sep)
  {
    var whole := a + [sep] + b;
    if a == "" {
      assert whole[1..] == b;
      assert Split(a, sep) == [""];
    } else {
      assert whole[1..] == a[1..] + [sep] + b && whole[0] == a[0];
      SplitConcat(a[1..], b, sep);
      if a[0] == sep {
        assert [""] + (Split(a[1..], sep) + Split(b, sep)) == [""] + Split(a[1..], sep) + Split(b, sep);
      } else {
        PrependConcat(a[0], Split(a[1..], sep), Split(b, sep));
      }
    }
  }

  lemma {:induction false} SplitPlain(c: string, sep: char)
    requires sep !in c
    ensures Split(c, sep) == [c]
  {
    if c != "" {
      SplitPlain(c[1..], sep);
      assert [c[0]] + c[1..] == c;
    }
  }

  /** Splitting undoes joining, as long as no part holds the separator. */
  lemma {:induction false} SplitOfJoined(parts: seq<string>, sep: char)
    requires parts != [] && Free(parts, sep)
    ensures Split(Joined(parts, sep), sep) == parts
  {
    SplitPlain(parts[0], sep);
    if |parts| > 1 {
      SplitOfJoined(parts[1..], sep);
      SplitConcat(parts[0], Joined(parts[1..], sep), sep);
      assert parts == [parts[0]] + parts[1..];
    }
  }
}
