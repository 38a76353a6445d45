/**
 The [daemon] patch of the configuration file: a loop over lines that replaces or
 inserts `key = value`, against a reader of the same lines that knows what TOML
 tables hold. The document's values are on one line each and its names are bare.
 */
module ConfigPatch {
  import opened Wrappers
  import opened Sequences
  import opened Text

  type Lines = seq<string>

  // ------------------------------------------------------------- one line

  /** The class \s of Go's regular expressions. */
  predicate Blank(c: char) {
    c == ' ' || c == '\t' || c == '\n' || c == '\r' || c as int == 0x0C
  }

  /** Where the text of a line starts. */
  function Start(line: string): (r: nat)
    ensures r <= |line|
  {
    Ahead(line, Blank, 0)
  }

  function Indent(line: string): string {
    line[..Start(line)]
  }

  /** Where the first equals sign is, or the length. */
  function Equals(line: string): (r: nat)
    ensures r <= |line|
  {
    Ahead(line, NotEquals, 0)
  }

  predicate NotEquals(c: char) {
    c != '='
  }

  predicate NotBracket(c: char) {
    c != ']'
  }

  /** The text up to the first closing bracket. */
  function InBrackets(s: string): string {
    s[..Ahead(s, NotBracket, 0)]
  }

  predicate BareChar(c: char) {
    'a' <= c <= 'z' || 'A' <= c <= 'Z' || '0' <= c <= '9' || c == '_' || c == '-'
  }

  lemma BareAlphabet(c: char)
    ensures BareChar(c) <==> c in "abcdefghijklmnopqrstuvwxyz" || c in "ABCDEFGHIJKLMNOPQRSTUVWXYZ" || c in "0123456789_-"
  {
  }

  predicate Bare(key: string) {
    key != "" && forall i :: 0 <= i < |key| ==> BareChar(key[i])
  }

  /** A serialized value: on one line, without blanks around it. */
  predicate Literal(v: string) {
    v != "" && !Blank(v[0]) && !Blank(v[|v| - 1]) && '\n' !in v
  }

  /** The source's regular expression ^(\s*)key\s*=. */
  predicate Matches(line: string, key: string) {
    var from := Start(line);
    && from + |key| <= |line| && line[from..from + |key|] == key
    && StartsAt(line, Ahead(line, Blank, from + |key|), '=')
  }

  predicate StartsAt(s: string, i: nat, c: char) {
    i < |s| && s[i] == c
  }

  // ----------------------------------------------------------- the reader

  datatype Header = Top | Table(name: string) | Tables(name: string)

  datatype Section = Section(header: Header, bindings: map<string, string>)

  /** In a document of single-line values a line that starts with a bracket opens a table. */
  predicate HeaderLine(line: string) {
    StartsAt(Trim(line), 0, '[')
  }

  /** The table a header opens, whatever comment follows it. */
  function HeaderOf(line: string): Header
    requires HeaderLine(line)
  {
    var t := Trim(line);
    if StartsAt(t, 1, '[') then Tables(Trim(InBrackets(t[2..]))) else Table(Trim(InBrackets(t[1..])))
  }

  predicate DaemonHeader(line: string) {
    HeaderLine(line) && HeaderOf(line) == Table("daemon")
  }

  /** The key a line assigns, if it assigns one: the text before the equals sign, without blanks around it. */
  function KeyOf(line: string): Option<string> {
    if HeaderLine(line) || StartsAt(line, Start(line), '#') || Equals(line) == |line| then None
    else Some(Slice(line, Start(line), Behind(line, Blank, Equals(line))))
  }

  /** The text after the equals sign (with any trailing comment), without blanks around it. */
  function ValueOf(line: string): string {
    if Equals(line) == |line| then ""
    else Slice(line, Ahead(line, Blank, Equals(line) + 1), Behind(line, Blank, |line|))
  }

  function Slice(s: string, from: nat, to: nat): string
    requires to <= |s|
  {
    if from < to then s[from..to] else ""
  }

  function Bound(bindings: map<string, string>, line: string): map<string, string> {
    match KeyOf(line)
    case None => bindings
    case Some(k) => bindings[k := ValueOf(line)]
  }

  function ReadLine(sections: seq<Section>, line: string): seq<Section> {
    if HeaderLine(line) then sections + [Section(HeaderOf(line), map[])]
    else if sections == [] then []
    else
      var last := sections[|sections| - 1];
      sections[..|sections| - 1] + [last.(bindings := Bound(last.bindings, line))]
  }

  function ReadOn(sections: seq<Section>, lines: Lines): seq<Section> {
    if lines == [] then sections
    else ReadLine(ReadOn(sections, lines[..|lines| - 1]), lines[|lines| - 1])
  }

  /** What a document says: its tables in order, each with its bindings; keys before any header belong to the top. */
  function Read(lines: Lines): seq<Section> {
    ReadOn([Section(Top, map[])], lines)
  }

  predicate IsDaemon(s: Section) {
    s.header == Table("daemon")
  }

  /** What a patch should make of a document: the daemon table gets the values, created at the end when there is none. */
  ghost function Update(sections: seq<Section>, values: map<string, string>): seq<Section> {
    seq(|sections|, i requires 0 <= i < |sections| =>
      if IsDaemon(sections[i]) then sections[i].(bindings := sections[i].bindings + values) else sections[i])
    + if exists s :: s in sections && IsDaemon(s) then [] else [Section(Table("daemon"), values)]
  }

  // ---------------------------------------------------------- the patcher

  /** What the source takes for a header: a line that starts with [ and ends with ]. */
  predicate Closed(line: string) {
    var t := Trim(line);
    StartsAt(t, 0, '[') && t[|t| - 1] == ']'
  }

  predicate DaemonLine(line: string) {
    Trim(line) == "[daemon]"
  }

  /** The first index from i on where p holds, or the length. */
  function Find(p: string -> bool, lines: Lines, i: nat): (r: nat)
    requires i <= |lines|
    ensures i <= r <= |lines| && (r < |lines| ==> p(lines[r]))
    ensures forall j :: i <= j < r ==> !p(lines[j])
    decreases |lines| - i
  {
    if i == |lines| || p(lines[i]) then i else Find(p, lines, i + 1)
  }

  /** The [daemon] line, and the next line the source takes for a header. */
  ghost function Opening(lines: Lines): (r: nat)
    ensures r <= |lines| && (r < |lines| ==> DaemonLine(lines[r])) && forall j :: 0 <= j < r ==> !DaemonLine(lines[j])
  {
    Find(DaemonLine, lines, 0)
  }

  ghost function Closing(lines: Lines): (r: nat)
    ensures Opening(lines) <= r <= |lines| && (r == Opening(lines) ==> r == |lines|) && (r < |lines| ==> Closed(lines[r]))
    ensures forall j :: Opening(lines) < j < r ==> !Closed(lines[j])
  {
    if Opening(lines) < |lines| then Find(Closed, lines, Opening(lines) + 1) else |lines|
  }

  ghost predicate AtMostOne(p: string -> bool, lines: Lines) {
    forall i, j :: 0 <= i < j < |lines| ==> !(p(lines[i]) && p(lines[j]))
  }

  function Assignment(key: string, value: string): string {
    key + " = " + value
  }

  /** A line with its assignment replaced and its indentation kept. */
  function Rewritten(line: string, key: Option<string>, values: map<string, string>): string
    requires key.Some? && key.value in values
  {
    Indent(line) + Assignment(key.value, values[key.value])
  }

  /** Line i is the first of the section to assign a patched key. */
  ghost predicate Replaces(body: Lines, values: map<string, string>, i: nat) {
    && i < |body| && KeyOf(body[i]).Some? && KeyOf(body[i]).value in values
    && forall j :: 0 <= j < i ==> KeyOf(body[j]) != KeyOf(body[i])
  }

  ghost function NewLine(body: Lines, values: map<string, string>, i: nat): string
    requires i < |body|
  {
    if Replaces(body, values, i) then Rewritten(body[i], KeyOf(body[i]), values) else body[i]
  }

  /** The first line for each patched key gets its value and keeps its indentation; every other line is verbatim. */
  ghost function Replaced(body: Lines, values: map<string, string>): (r: Lines)
    ensures |r| == |body| && forall i :: 0 <= i < |r| ==> r[i] == NewLine(body, values, i)
  {
    seq(|body|, i requires 0 <= i < |body| => NewLine(body, values, i))
  }

  ghost predicate Assigns(body: Lines, key: string) {
    exists i :: 0 <= i < |body| && KeyOf(body[i]) == Some(key)
  }

  ghost function Assigned(body: Lines, values: map<string, string>): set<string> {
    set k | k in values && Assigns(body, k)
  }

  /** Lines for the keys that were not written, in the order the map gave them. */
  ghost function Missing(written: set<string>, values: map<string, string>, order: seq<string>): Lines
    requires forall k :: k in order ==> k in values
  {
    if order == [] then []
    else
      var k := order[|order| - 1];
      Missing(written, values, order[..|order| - 1]) + if k in written then [] else [Assignment(k, values[k])]
  }

  ghost predicate OrderOf(order: seq<string>, values: map<string, string>) {
    NoDuplicates(order) && forall k :: k in order <==> k in values
  }

  /**
   The patched document: verbatim up to the [daemon] line, the section's own lines
   with their replacements, the missing keys, and verbatim from the next header on.
   */
  ghost function PatchLines(lines: Lines, values: map<string, string>, order: seq<string>): Lines
    requires OrderOf(order, values)
  {
    var d, e := Opening(lines), Closing(lines);
    if d == |lines| then lines + ["[daemon]"] + Missing({}, values, order)
    else
      lines[..d + 1] + NewBody(lines[d + 1..e], values, order) + lines[e..]
  }

  ghost function PatchText(text: string, values: map<string, string>, order: seq<string>): string
    requires OrderOf(order, values)
  {
    Joined(PatchLines(Split(text, '\n'), values, order), '\n')
  }

  ghost function NewBody(body: Lines, values: map<string, string>, order: seq<string>): Lines
    requires OrderOf(order, values)
  {
    Replaced(body, values) + Missing(Assigned(body, values), values, order)
  }

  /** The keys a caller may send, with their serialized values. */
  ghost predicate Patchable(values: map<string, string>) {
    forall k :: k in values ==> Bare(k) && Literal(values[k])
  }

  /** Rewrites a line of the section when the pattern of an unwritten key matches it; the map gives the keys in its order. */
  method ReplaceLine(line: string, values: map<string, string>, order: seq<string>, written: set<string>)
    returns (r: string, now: set<string>)
    requires Patchable(values) && OrderOf(order, values)
    ensures r == if IsFirst(line, values, written) then Rewritten(line, KeyOf(line), values) else line
    ensures now == if IsFirst(line, values, written) then written + {KeyOf(line).value} else written
  {
    var i := 0;
    while i < |order|
      invariant 0 <= i <= |order|
      invariant IsFirst(line, values, written) ==> forall j :: 0 <= j < i ==> order[j] != KeyOf(line).value
    {
      var key, next := order[i], i + 1;
      MatchesIsKey(line, key);
      if key !in written && Matches(line, key) {
        return Indent(line) + Assignment(key, values[key]), written + {key};
      }
      i := next;
    }
    return line, written;
  }

  method FlushMissing(out: Lines, values: map<string, string>, order: seq<string>, written: set<string>) returns (r: Lines)
    requires OrderOf(order, values)
    ensures r == out + Missing(written, values, order)
  {
    r := out;
    var i := 0;
    while i < |order|
      invariant 0 <= i <= |order|
      invariant r == out + Missing(written, values, order[..i])
    {
      OrderGrows(order, i);
      if order[i] !in written {
        r := r + [Assignment(order[i], values[order[i]])];
      }
      i := i + 1;
    }
    assert order[..i] == order;
  }

  lemma OrderGrows(order: seq<string>, i: nat)
    requires i < |order|
    ensures order[..i + 1][..i] == order[..i] && order[..i + 1][i] == order[i]
  {
  }

  /** The line assigns a patched key that is not written yet. */
  predicate IsFirst(line: string, values: map<string, string>, written: set<string>) {
    KeyOf(line).Some? && KeyOf(line).value in values && KeyOf(line).value !in written
  }

  /** What is written of the first i lines, when the section opens at d and closes at e. */
  ghost function SoFar(lines: Lines, values: map<string, string>, order: seq<string>, d: nat, e: nat, i: nat): Lines
    requires i <= |lines| && d <= e && (d == e ==> d == |lines|) && OrderOf(order, values)
  {
    if i <= d then lines[..i]
    else if i <= e then lines[..d + 1] + Replaced(lines[d + 1..i], values)
    else lines[..d + 1] + NewBody(lines[d + 1..e], values, order) + lines[e..i]
  }

  ghost function WrittenOf(lines: Lines, values: map<string, string>, d: nat, e: nat, i: nat): set<string>
    requires i <= |lines| && d <= e && (d == e ==> d == |lines|)
  {
    if i <= d then {} else Assigned(lines[d + 1..if i <= e then i else e], values)
  }

  /** The iteration order of the map is an input: the environment picks it. */
  method PatchDaemonSection(text: string, values: map<string, string>, order: seq<string>) returns (r: string)
    requires Patchable(values) && OrderOf(order, values) && AtMostOne(DaemonLine, Split(text, '\n'))
    ensures r == PatchText(text, values, order)
  {
    var out := PatchEachLine(Split(text, '\n'), values, order);
    r := Joined(out, '\n');
  }

  method PatchEachLine(lines: Lines, values: map<string, string>, order: seq<string>) returns (out: Lines)
    requires Patchable(values) && OrderOf(order, values) && AtMostOne(DaemonLine, lines)
    ensures out == PatchLines(lines, values, order)
  {
    hide SoFar, WrittenOf, KeyOf, Rewritten, Missing, PatchLines, Patchable;
    out := [];
    var written: set<string> := {};
    var inDaemon, foundDaemon := false, false;
    ghost var d, e := Opening(lines), Closing(lines);
    SoFarAtStart(lines, values, order, d, e);
    var i := 0;
    while i < |lines|
      invariant 0 <= i <= |lines| && foundDaemon == (d < i) && inDaemon == (d < i <= e)
      invariant out == SoFar(lines, values, order, d, e, i) && written == WrittenOf(lines, values, d, e, i)
    {
      var line := lines[i];
      DaemonLineIsHeader(line);
      assert DaemonLine(line) <==> i == d;
      var next := i + 1;
      SoFarGrows(lines, values, order, d, e, i, next);
      if Closed(line) {
        if DaemonLine(line) {
          foundDaemon := true;
          inDaemon := true;
        } else {
          if inDaemon {
            out := FlushMissing(out, values, order, written);
          }
          inDaemon := false;
        }
        out := out + [line];
      } else {
        if inDaemon {
          line, written := ReplaceLine(line, values, order, written);
        }
        out := out + [line];
      }
      i := next;
    }
    SoFarIsAll(lines, values, order);
    if inDaemon {
      out := FlushMissing(out, values, order, written);
    }
    if !foundDaemon {
      out := out + ["[daemon]"];
      out := FlushMissing(out, values, order, written);
    }
  }

  lemma SoFarAtStart(lines: Lines, values: map<string, string>, order: seq<string>, d: nat, e: nat)
    requires d <= e && (d == e ==> d == |lines|) && OrderOf(order, values)
    ensures SoFar(lines, values, order, d, e, 0) == [] && WrittenOf(lines, values, d, e, 0) == {}
  {
  }

  /** The next line: the section's lines are matched, its end adds what is missing, other lines are copied. */
  lemma SoFarGrows(lines: Lines, values: map<string, string>, order: seq<string>, d: nat, e: nat, i: nat, next: nat)
    requires next == i + 1 <= |lines| && d <= e && (d == e ==> d == |lines|) && OrderOf(order, values)
    ensures var out, written, line := SoFar(lines, values, order, d, e, i), WrittenOf(lines, values, d, e, i), lines[i];
            var first := d < i < e && IsFirst(line, values, written);
            && SoFar(lines, values, order, d, e, next)
               == (if d < i == e then out + Missing(written, values, order) else out)
                  + [if first then Rewritten(line, KeyOf(line), values) else line]
            && WrittenOf(lines, values, d, e, next) == if first then written + {KeyOf(line).value} else written
  {
    if i <= d {
      LinesCopied(lines, d, i);
    } else if i < e {
      BodyGrows(lines, values, d, i);
    } else if i == e {
      Associates(lines[..d + 1], Replaced(lines[d + 1..e], values), Missing(Assigned(lines[d + 1..e], values), values, order));
      assert lines[e..i + 1] == [lines[i]];
    } else {
      Associates(lines[..d + 1] + NewBody(lines[d + 1..e], values, order), lines[e..i], [lines[i]]);
      assert lines[e..i] + [lines[i]] == lines[e..i + 1];
    }
  }

  lemma LinesCopied(lines: Lines, d: nat, i: nat)
    requires i <= d && i < |lines|
    ensures lines[..i] + [lines[i]] == lines[..i + 1]
    ensures i == d ==> lines[d + 1..i + 1] == []
  {
  }

  lemma Associates(a: Lines, b: Lines, c: Lines)
    ensures a + b + c == a + (b + c) && a + [] == a
  {
  }

  lemma SoFarIsAll(lines: Lines, values: map<string, string>, order: seq<string>)
    requires OrderOf(order, values)
    ensures var d, e, n := Opening(lines), Closing(lines), |lines|;
            var out, written := SoFar(lines, values, order, d, e, n), WrittenOf(lines, values, d, e, n);
            PatchLines(lines, values, order)
            == if d == n then out + ["[daemon]"] + Missing(written, values, order)
               else if e == n then out + Missing(written, values, order)
               else out
  {
    hide KeyOf, Replaced, Missing, Closed, DaemonLine, Assigned;
    var d, e, n := Opening(lines), Closing(lines), |lines|;
    Whole(lines, d, e);
    if d < n {
      var body := lines[d + 1..e];
      Associates(lines[..d + 1], Replaced(body, values), Missing(Assigned(body, values), values, order));
      Associates(lines[..d + 1] + NewBody(body, values, order), [], []);
    }
  }

  lemma Whole(lines: Lines, d: nat, e: nat)
    requires d <= e <= |lines|
    ensures lines[..|lines|] == lines && lines[e..|lines|] == lines[e..] && (e == |lines| ==> lines[e..] == [])
  {
  }

  /** One more line of the section. */
  lemma BodyGrows(lines: Lines, values: map<string, string>, d: nat, i: nat)
    requires d < i < |lines|
    ensures var body, line := lines[d + 1..i], lines[i];
            var first := IsFirst(line, values, Assigned(body, values));
            && lines[..d + 1] + Replaced(lines[d + 1..i + 1], values)
               == lines[..d + 1] + Replaced(body, values) + [if first then Rewritten(line, KeyOf(line), values) else line]
            && Assigned(lines[d + 1..i + 1], values)
               == if first then Assigned(body, values) + {KeyOf(line).value} else Assigned(body, values)
  {
    var body, line := lines[d + 1..i], lines[i];
    assert lines[d + 1..i + 1] == body + [line];
    ReplacedGrows(body, values, line);
    AssignedGrows(body, values, line);
  }

  lemma ReplacedGrows(body: Lines, values: map<string, string>, line: string)
    ensures var key := KeyOf(line);
            var first := IsFirst(line, values, Assigned(body, values));
            Replaced(body + [line], values)
            == Replaced(body, values) + [if first then Rewritten(line, key, values) else line]
  {
    var more := body + [line];
    var key := KeyOf(line);
    EarlierLines(body, values, line);
    if key.Some? && key.value in values {
      LastReplaces(body, values, line);
    }
    assert more[|body|] == line;
    assert Replaced(more, values) == Replaced(body, values) + [NewLine(more, values, |body|)];
  }

  lemma EarlierLines(body: Lines, values: map<string, string>, line: string)
    ensures forall i: nat :: i < |body| ==> NewLine(body + [line], values, i) == NewLine(body, values, i)
  {
    var more := body + [line];
    forall i: nat | i < |body|
      ensures NewLine(more, values, i) == NewLine(body, values, i)
    {
      assert forall j :: 0 <= j <= i ==> more[j] == body[j];
    }
  }

  lemma AssignedGrows(body: Lines, values: map<string, string>, line: string)
    ensures var key := KeyOf(line);
            Assigned(body + [line], values)
            == if key.Some? && key.value in values then Assigned(body, values) + {key.value} else Assigned(body, values)
  {
    var all := if KeyOf(line).Some? && KeyOf(line).value in values then Assigned(body, values) + {KeyOf(line).value}
               else Assigned(body, values);
    forall k
      ensures k in Assigned(body + [line], values) <==> k in all
    {
      AssignsMore(body, line, k);
    }
  }

  lemma AssignsMore(body: Lines, line: string, key: string)
    ensures Assigns(body + [line], key) <==> Assigns(body, key) || KeyOf(line) == Some(key)
  {
    var more := body + [line];
    assert more[|body|] == line;
    if Assigns(body, key) {
      var i :| 0 <= i < |body| && KeyOf(body[i]) == Some(key);
      assert KeyOf(more[i]) == Some(key);
    }
  }

  lemma LastReplaces(body: Lines, values: map<string, string>, line: string)
    requires KeyOf(line).Some? && KeyOf(line).value in values
    ensures Replaces(body + [line], values, |body|) <==> !Assigns(body, KeyOf(line).value)
  {
    var more := body + [line];
    assert forall j :: 0 <= j < |body| ==> more[j] == body[j];
    assert more[|body|] == line;
  }

  // ------------------------------------------------------- lines, read back

  /** The text of s from n on starts with t. */
  ghost predicate TextAt(s: string, n: nat, t: string) {
    n + |t| <= |s| && forall i :: n <= i < n + |t| ==> s[i] == t[i - n]
  }

  lemma TextAtSlice(s: string, n: nat, t: string)
    requires n + |t| <= |s|
    ensures TextAt(s, n, t) <==> s[n..n + |t|] == t
  {
    var u := s[n..n + |t|];
    assert forall i :: n <= i < n + |t| ==> s[i] == u[i - n];
    if TextAt(s, n, t) {
      forall j | 0 <= j < |t|
        ensures u[j] == t[j]
      {
        assert s[n + j] == t[n + j - n];
      }
    }
  }

  /** A bare key at n, after blanks, then blanks up to an equals sign at m. */
  ghost predicate KeyAt(line: string, n: nat, key: string, m: nat) {
    && Bare(key) && n + |key| <= m < |line| && TextAt(line, n, key)
    && (forall i :: 0 <= i < n || n + |key| <= i < m ==> Blank(line[i]))
    && line[m] == '='
  }

  lemma KeyAtEnds(line: string, n: nat, key: string, m: nat)
    requires KeyAt(line, n, key, m)
    ensures BareChar(line[n]) && BareChar(line[n + |key| - 1])
    ensures forall i :: n <= i < n + |key| ==> line[i] != '='
  {
    forall i | n <= i < n + |key|
      ensures BareChar(line[i])
    {
      assert line[i] == key[i - n];
    }
  }

  lemma KeyPlaces(line: string, n: nat, key: string, m: nat)
    requires KeyAt(line, n, key, m)
    ensures Start(line) == n && Equals(line) == m && Behind(line, Blank, m) == n + |key|
    ensures BareChar(line[n])
  {
    KeyAtEnds(line, n, key, m);
  }

  lemma KeyBetween(line: string, n: nat, to: nat, m: nat, key: string)
    requires n < to <= m < |line| && key == line[n..to]
    requires Start(line) == n && Equals(line) == m && Behind(line, Blank, m) == to
    requires !HeaderLine(line) && line[n] != '#'
    ensures KeyOf(line) == Some(key)
  {
  }

  lemma ValueBetween(line: string, m: nat, from: nat, to: nat, value: string)
    requires m < from < to <= |line| && line[from..to] == value
    requires Equals(line) == m && Ahead(line, Blank, m + 1) == from && Behind(line, Blank, |line|) == to
    ensures ValueOf(line) == value
  {
  }

  /** Such a line is read as assigning the key. */
  lemma KeyAtReads(line: string, n: nat, key: string, m: nat)
    requires KeyAt(line, n, key, m)
    ensures KeyOf(line) == Some(key) && !HeaderLine(line)
    ensures Start(line) == n && Equals(line) == m
  {
    KeyPlaces(line, n, key, m);
    NoHeader(line, n);
    TextAtSlice(line, n, key);
    KeyBetween(line, n, n + |key|, m, key);
  }

  /** A line whose text starts with the character of a key is no header. */
  lemma NoHeader(line: string, n: nat)
    requires n < |line| && BareChar(line[n]) && forall i :: 0 <= i < n ==> Blank(line[i])
    ensures !HeaderLine(line)
  {
    assert Ahead(line, IsSpace, 0) == n;
    assert Behind(line, IsSpace, |line|) > n;
    assert Trim(line)[0] == line[n];
  }

  /** The pattern finds exactly the lines that are read as assigning the key. */
  lemma MatchesIsKey(line: string, key: string)
    requires Bare(key)
    ensures Matches(line, key) <==> KeyOf(line) == Some(key)
  {
    if Matches(line, key) {
      TextAtSlice(line, Start(line), key);
      KeyAtReads(line, Start(line), key, Ahead(line, Blank, Start(line) + |key|));
    }
    if KeyOf(line) == Some(key) {
      ReadIsMatched(line, key);
    }
  }

  /** Only spaces, tabs and the characters that end lines and pages. */
  predicate AllWhite(s: string) {
    forall i :: 0 <= i < |s| ==> s[i] in [' ', '\t', '\n', '\r', 0x0C as char]
  }

  /**
   Told by its spelling: a key between white space, an equals sign and anything after
   it is an assignment of that key, the pattern of that key matches it and of no other,
   and what it is rewritten to keeps the indentation.
   */
  lemma SpelledAssignment(indent: string, key: string, gap: string, rest: string, other: string, values: map<string, string>)
    requires Bare(key) && AllWhite(indent) && AllWhite(gap) && key in values && Bare(other)
    ensures var line := indent + key + gap + "=" + rest;
            && KeyOf(line) == Some(key) && (Matches(line, other) <==> other == key)
            && Rewritten(line, KeyOf(line), values) == indent + key + " = " + values[key]
  {
    hide KeyOf, Matches, Bare, KeyAt;
    var line := indent + key + gap + "=" + rest;
    SpelledParts(indent, key, gap, rest, line);
    KeyAtReads(line, |indent|, key, |indent| + |key| + |gap|);
    MatchesIsKey(line, other);
    assert indent + (key + " = " + values[key]) == indent + key + " = " + values[key];
  }

  lemma SpelledParts(indent: string, key: string, gap: string, rest: string, line: string)
    requires Bare(key) && AllWhite(indent) && AllWhite(gap) && line == indent + key + gap + "=" + rest
    ensures KeyAt(line, |indent|, key, |indent| + |key| + |gap|) && line[..|indent|] == indent
  {
    hide Bare;
    var n, m := |indent|, |indent| + |key| + |gap|;
    assert line[..n] == indent && line[n..n + |key|] == key && line[n + |key|..m] == gap;
    assert forall i :: 0 <= i < n ==> line[i] == indent[i];
    assert forall i :: n + |key| <= i < m ==> line[i] == gap[i - n - |key|];
    TextAtSlice(line, n, key);
  }

  /** A comment assigns nothing. */
  lemma SpelledComment(indent: string, rest: string)
    requires AllWhite(indent)
    ensures KeyOf(indent + "#" + rest) == None
  {
    var line := indent + "#" + rest;
    assert line[|indent|] == '#' && forall i :: 0 <= i < |indent| ==> line[i] == indent[i];
    assert Start(line) == |indent|;
  }

  lemma ReadIsMatched(line: string, key: string)
    requires Bare(key) && KeyOf(line) == Some(key)
    ensures Matches(line, key)
  {
    var n, m := Start(line), Equals(line);
    var to := Behind(line, Blank, m);
    assert n < to && key == line[n..to] && n + |key| == to;
    assert Ahead(line, Blank, to) == m;
  }

  /** What the patcher writes for a key is read back as that key with that value. */
  lemma AssignmentReads(indent: string, key: string, value: string)
    requires Bare(key) && Literal(value) && forall i :: 0 <= i < |indent| ==> Blank(indent[i])
    ensures var line := indent + Assignment(key, value);
            KeyOf(line) == Some(key) && ValueOf(line) == value && !HeaderLine(line) && Indent(line) == indent
  {
    var line := indent + Assignment(key, value);
    var n, m := |indent|, |indent| + |key| + 1;
    AssignmentParts(indent, key, value, line);
    KeyAtReads(line, n, key, m);
    AroundValue(line, m, value);
    ValueBetween(line, m, m + 2, |line|, value);
  }

  lemma AroundValue(line: string, m: nat, value: string)
    requires Literal(value) && |line| == m + 2 + |value| && line[m + 1] == ' '
    requires line[m + 2] == value[0] && line[|line| - 1] == value[|value| - 1]
    ensures Ahead(line, Blank, m + 1) == m + 2 && Behind(line, Blank, |line|) == |line|
  {
  }

  lemma AssignmentParts(indent: string, key: string, value: string, line: string)
    requires line == indent + Assignment(key, value)
    requires Bare(key) && Literal(value) && forall i :: 0 <= i < |indent| ==> Blank(indent[i])
    ensures var n, m := |indent|, |indent| + |key| + 1;
            && KeyAt(line, n, key, m) && |line| == m + 2 + |value|
            && line[..n] == indent && line[m + 1] == ' ' && line[m + 2..|line|] == value
            && line[m + 2] == value[0] && line[|line| - 1] == value[|value| - 1]
  {
    var n, m := |indent|, |indent| + |key| + 1;
    assert line[..n] == indent;
    assert line[n..n + |key|] == key;
    TextAtSlice(line, n, key);
    assert line[m - 1..m + 2] == " = ";
    assert line[m + 2..] == value;
  }

  lemma AssignmentIsOneLine(indent: string, key: string, value: string)
    requires Bare(key) && Literal(value) && '\n' !in indent
    ensures '\n' !in indent + Assignment(key, value)
  {
    assert forall i :: 0 <= i < |key| ==> BareChar(key[i]);
  }

  lemma DaemonLineIsHeader(line: string)
    ensures DaemonLine(line) ==> Closed(line) && DaemonHeader(line)
    ensures Closed(line) ==> HeaderLine(line) && KeyOf(line) == None
  {
    if DaemonLine(line) {
      var t := "[daemon]";
      var rest := t[1..];
      assert rest == "daemon]" && rest[6] == ']';
      assert forall i :: 0 <= i < 6 ==> rest[i] != ']';
      assert Ahead(rest, NotBracket, 0) == 6;
      assert rest[..6] == "daemon";
      TrimOfTrimmed("daemon");
    }
  }
}
