/**
 What the [daemon] patch does to the document as it is read: exactly the update
 asked for, for exactly the documents whose headers the source recognises.
 */
module ConfigPatchLaws {
  import opened Wrappers
  import opened Sequences
  import opened Text
  import opened ConfigPatch

  // ------------------------------------------------- reading, piece by piece

  lemma {:induction false} ReadOnConcat(sections: seq<Section>, a: Lines, b: Lines)
    ensures ReadOn(sections, a + b) == ReadOn(ReadOn(sections, a), b)
  {
    if b == [] {
      assert a + b == a;
    } else {
      ConcatLast(a, b);
      ReadOnConcat(sections, a, b[..|b| - 1]);
    }
  }

  lemma ConcatLast(a: Lines, b: Lines)
    requires b != []
    ensures var whole := a + b; whole[..|whole| - 1] == a + b[..|b| - 1] && whole[|whole| - 1] == b[|b| - 1]
  {
  }

  predicate NoHeaders(body: Lines) {
    forall l :: l in body ==> !HeaderLine(l)
  }

  /** What the lines of one section bind. */
  function BindingsOf(body: Lines): map<string, string> {
    if body == [] then map[] else Bound(BindingsOf(body[..|body| - 1]), body[|body| - 1])
  }

  lemma {:induction false} ReadBody(sections: seq<Section>, header: Header, body: Lines)
    requires NoHeaders(body)
    ensures ReadOn(sections + [Section(header, map[])], body) == sections + [Section(header, BindingsOf(body))]
  {
    if body != [] {
      var init, line := body[..|body| - 1], body[|body| - 1];
      ReadBody(sections, header, init);
      var s := sections + [Section(header, BindingsOf(init))];
      assert line in body;
      assert s[..|s| - 1] == sections;
    }
  }

  predicate StartsFresh(lines: Lines) {
    lines == [] || HeaderLine(lines[0])
  }

  lemma {:induction false} ReadFromHeader(sections: seq<Section>, lines: Lines)
    requires StartsFresh(lines)
    ensures ReadOn(sections, lines) == sections + ReadOn([], lines)
    ensures lines != [] ==> ReadOn([], lines) != []
  {
    if lines == [] {
      assert sections + [] == sections;
    } else if |lines| == 1 {
      assert lines[..0] == [];
      assert [] + [Section(HeaderOf(lines[0]), map[])] == [Section(HeaderOf(lines[0]), map[])];
    } else {
      var init, line := lines[..|lines| - 1], lines[|lines| - 1];
      ReadFromHeader(sections, init);
      ReadLineAfter(sections, ReadOn([], init), line);
    }
  }

  lemma ReadLineAfter(a: seq<Section>, b: seq<Section>, line: string)
    requires b != []
    ensures ReadLine(a + b, line) == a + ReadLine(b, line)
  {
    var s := a + b;
    if HeaderLine(line) {
      assert s + [Section(HeaderOf(line), map[])] == a + (b + [Section(HeaderOf(line), map[])]);
    } else {
      assert s[..|s| - 1] == a + b[..|b| - 1];
    }
  }

  /** A document around one of its tables. */
  lemma ReadAround(before: Lines, header: string, body: Lines, after: Lines)
    requires HeaderLine(header) && NoHeaders(body) && StartsFresh(after)
    ensures Read(before + [header] + body + after)
            == Read(before) + [Section(HeaderOf(header), BindingsOf(body))] + ReadOn([], after)
  {
    var top := [Section(Top, map[])];
    ReadOnConcat(top, before + [header] + body, after);
    ReadOnConcat(top, before + [header], body);
    ReadOnConcat(top, before, [header]);
    ReadOneHeader(Read(before), header);
    ReadBody(Read(before), HeaderOf(header), body);
    ReadFromHeader(Read(before) + [Section(HeaderOf(header), BindingsOf(body))], after);
  }

  lemma ReadOneHeader(sections: seq<Section>, header: string)
    requires HeaderLine(header)
    ensures ReadOn(sections, [header]) == sections + [Section(HeaderOf(header), map[])]
  {
    assert [header][..0] == [];
  }

  ghost predicate HasDaemon(sections: seq<Section>) {
    exists i :: 0 <= i < |sections| && IsDaemon(sections[i])
  }

  ghost predicate HasHeader(lines: Lines) {
    exists i :: 0 <= i < |lines| && DaemonHeader(lines[i])
  }

  lemma HasHeaderGrows(lines: Lines, line: string)
    ensures HasHeader(lines + [line]) <==> HasHeader(lines) || DaemonHeader(line)
  {
    var more := lines + [line];
    assert more[|lines|] == line;
    assert forall i :: 0 <= i < |lines| ==> more[i] == lines[i];
    if HasHeader(lines) {
      var i :| 0 <= i < |lines| && DaemonHeader(lines[i]);
      assert DaemonHeader(more[i]);
    }
  }

  /** There is a daemon section exactly where there was one, or where a header of the lines opens one. */
  lemma {:induction false} DaemonIsRead(sections: seq<Section>, lines: Lines)
    ensures |ReadOn(sections, lines)| >= |sections|
    ensures HasDaemon(ReadOn(sections, lines)) <==> HasDaemon(sections) || HasHeader(lines)
  {
    hide ReadLine, DaemonHeader, HasDaemon;
    if lines != [] {
      var init, line := lines[..|lines| - 1], lines[|lines| - 1];
      DaemonIsRead(sections, init);
      HasHeaderGrows(init, line);
      assert lines == init + [line];
      DaemonLineIsRead(ReadOn(sections, init), line);
    }
  }

  lemma DaemonLineIsRead(sections: seq<Section>, line: string)
    ensures |ReadLine(sections, line)| >= |sections|
    ensures HasDaemon(ReadLine(sections, line)) <==> HasDaemon(sections) || DaemonHeader(line)
  {
    var now := ReadLine(sections, line);
    if HeaderLine(line) {
      assert now[|sections|].header == HeaderOf(line);
      assert forall i :: 0 <= i < |sections| ==> now[i] == sections[i];
    } else {
      assert forall i :: 0 <= i < |sections| ==> now[i].header == sections[i].header;
    }
    if HasDaemon(sections) {
      var i :| 0 <= i < |sections| && IsDaemon(sections[i]);
      assert IsDaemon(now[i]);
    }
    if HasDaemon(now) {
      var i :| 0 <= i < |now| && IsDaemon(now[i]);
      if i < |sections| {
        assert IsDaemon(sections[i]);
      }
    }
  }

  // ------------------------------------------------------ the patched section

  lemma IndentIsBlank(line: string)
    ensures forall i :: 0 <= i < |Indent(line)| ==> Blank(Indent(line)[i])
  {
  }

  /** A rewritten line assigns the same key, the new value. */
  lemma RewrittenReads(line: string, values: map<string, string>)
    requires Patchable(values) && KeyOf(line).Some? && KeyOf(line).value in values
    ensures var now := Rewritten(line, KeyOf(line), values);
            && KeyOf(now) == KeyOf(line) && ValueOf(now) == values[KeyOf(line).value] && !HeaderLine(now)
            && Rewritten(now, KeyOf(now), values) == now
    ensures '\n' !in line ==> '\n' !in Rewritten(line, KeyOf(line), values)
  {
    var key := KeyOf(line).value;
    IndentIsBlank(line);
    AssignmentReads(Indent(line), key, values[key]);
    if '\n' !in line {
      AssignmentIsOneLine(Indent(line), key, values[key]);
    }
  }

  lemma AddedReads(key: string, values: map<string, string>)
    requires Patchable(values) && key in values
    ensures var now := Assignment(key, values[key]);
            && KeyOf(now) == Some(key) && ValueOf(now) == values[key] && !HeaderLine(now)
            && Rewritten(now, KeyOf(now), values) == now && '\n' !in now
  {
    AssignmentReads("", key, values[key]);
    AssignmentIsOneLine("", key, values[key]);
    assert "" + Assignment(key, values[key]) == Assignment(key, values[key]);
  }

  /** Position by position, the replaced body assigns what the body assigned. */
  lemma ReplacedKeys(body: Lines, values: map<string, string>, i: nat)
    requires Patchable(values) && i < |body|
    ensures KeyOf(Replaced(body, values)[i]) == KeyOf(body[i])
    ensures !HeaderLine(body[i]) ==> !HeaderLine(Replaced(body, values)[i])
    ensures HeaderLine(body[i]) ==> Replaced(body, values)[i] == body[i]
    ensures '\n' !in body[i] ==> '\n' !in Replaced(body, values)[i]
  {
    if Replaces(body, values, i) {
      RewrittenReads(body[i], values);
    }
  }

  /** No key is assigned twice. */
  ghost predicate UniqueKeys(body: Lines) {
    forall i, j :: 0 <= i < j < |body| && KeyOf(body[i]).Some? ==> KeyOf(body[i]) != KeyOf(body[j])
  }

  ghost function Restricted(values: map<string, string>, keys: set<string>): map<string, string> {
    map k | k in values && k in keys :: values[k]
  }

  lemma {:induction false} BindingsOfReplaced(body: Lines, values: map<string, string>)
    requires Patchable(values) && UniqueKeys(body)
    ensures BindingsOf(Replaced(body, values)) == BindingsOf(body) + Restricted(values, Assigned(body, values))
  {
    hide Bound, Rewritten, HeaderLine, IsFirst;
    if body == [] {
      assert Replaced(body, values) == [];
    } else {
      var init, line := body[..|body| - 1], body[|body| - 1];
      BindingsOfReplaced(init, values);
      assert body == init + [line];
      ReplacedGrows(init, values, line);
      AssignedGrows(init, values, line);
      LastBinding(init, values, line);
    }
  }

  lemma LastBinding(init: Lines, values: map<string, string>, line: string)
    requires Patchable(values) && UniqueKeys(init + [line])
    ensures var now := if IsFirst(line, values, Assigned(init, values)) then Rewritten(line, KeyOf(line), values) else line;
            Bound(BindingsOf(init) + Restricted(values, Assigned(init, values)), now)
            == Bound(BindingsOf(init), line) + Restricted(values, Assigned(init + [line], values))
  {
    AssignedGrows(init, values, line);
    if KeyOf(line).Some? {
      var key := KeyOf(line).value;
      LastKeyIsNew(init, line);
      if key in values {
        RewrittenReads(line, values);
        BindNew(BindingsOf(init), values, Assigned(init, values), key, ValueOf(line));
      } else {
        BindOther(BindingsOf(init), Restricted(values, Assigned(init, values)), key, ValueOf(line));
      }
    }
  }

  lemma LastKeyIsNew(init: Lines, line: string)
    requires UniqueKeys(init + [line]) && KeyOf(line).Some?
    ensures !Assigns(init, KeyOf(line).value)
  {
    var whole := init + [line];
    assert whole[|init|] == line;
    forall i | 0 <= i < |init|
      ensures KeyOf(init[i]) != KeyOf(line)
    {
      assert whole[i] == init[i];
    }
  }

  lemma BindNew(b: map<string, string>, values: map<string, string>, keys: set<string>, key: string, v: string)
    requires key in values
    ensures (b + Restricted(values, keys))[key := values[key]] == b[key := v] + Restricted(values, keys + {key})
  {
  }

  lemma BindOther(b: map<string, string>, c: map<string, string>, key: string, v: string)
    requires key !in c
    ensures (b + c)[key := v] == b[key := v] + c
  {
  }

  /** The values of the keys in an order that are not written yet. */
  ghost function Given(values: map<string, string>, written: set<string>, order: seq<string>): map<string, string>
    requires forall k :: k in order ==> k in values
  {
    map k | k in order && k !in written :: values[k]
  }

  /** The missing keys are bound after whatever was, in any order. */
  lemma {:induction false} BindingsOfMissing(body: Lines, written: set<string>, values: map<string, string>, order: seq<string>)
    requires Patchable(values) && forall k :: k in order ==> k in values
    ensures BindingsOf(body + Missing(written, values, order)) == BindingsOf(body) + Given(values, written, order)
  {
    if order == [] {
      assert body + [] == body;
    } else {
      var init, key := order[..|order| - 1], order[|order| - 1];
      assert order == init + [key];
      BindingsOfMissing(body, written, values, init);
      GivenGrows(BindingsOf(body), values, written, init, key);
      if key !in written {
        AddedReads(key, values);
        LastLine(body, Missing(written, values, init), Assignment(key, values[key]));
      } else {
        assert Missing(written, values, order) == Missing(written, values, init);
      }
    }
  }

  lemma LastLine(body: Lines, added: Lines, line: string)
    ensures BindingsOf(body + (added + [line])) == Bound(BindingsOf(body + added), line)
  {
    var whole := body + (added + [line]);
    assert whole[..|whole| - 1] == body + added && whole[|whole| - 1] == line;
  }

  lemma GivenGrows(b: map<string, string>, values: map<string, string>, written: set<string>, order: seq<string>, key: string)
    requires key in values && forall k :: k in order ==> k in values
    ensures b + Given(values, written, order + [key])
            == if key in written then b + Given(values, written, order)
               else (b + Given(values, written, order))[key := values[key]]
  {
    assert forall k :: k in order + [key] <==> k in order || k == key;
  }

  /** The new section binds the values, and otherwise what the section bound. */
  lemma NewBodyBinds(body: Lines, values: map<string, string>, order: seq<string>)
    requires Patchable(values) && OrderOf(order, values) && UniqueKeys(body)
    ensures BindingsOf(NewBody(body, values, order)) == BindingsOf(body) + values
  {
    BindingsOfReplaced(body, values);
    var w := Assigned(body, values);
    BindingsOfMissing(Replaced(body, values), w, values, order);
    AllValues(BindingsOf(body), values, w, order);
  }

  lemma AllValues(b: map<string, string>, values: map<string, string>, written: set<string>, order: seq<string>)
    requires forall k :: k in order <==> k in values
    ensures b + Restricted(values, written) + Given(values, written, order) == b + values
  {
  }

  lemma {:induction false} MissingAt(written: set<string>, values: map<string, string>, order: seq<string>, j: nat)
    returns (key: string)
    requires (forall k :: k in order ==> k in values) && j < |Missing(written, values, order)|
    ensures key in order && key !in written && Missing(written, values, order)[j] == Assignment(key, values[key])
  {
    var init, last := order[..|order| - 1], order[|order| - 1];
    if j < |Missing(written, values, init)| {
      key := MissingAt(written, values, init, j);
    } else {
      key := last;
    }
  }

  /** Every missing line reads as an assignment of a patched key. */
  lemma MissingReads(written: set<string>, values: map<string, string>, order: seq<string>, j: nat)
    requires Patchable(values) && OrderOf(order, values) && j < |Missing(written, values, order)|
    ensures var line := Missing(written, values, order)[j];
            && KeyOf(line).Some? && KeyOf(line).value in values && Rewritten(line, KeyOf(line), values) == line
            && !HeaderLine(line) && '\n' !in line
  {
    var key := MissingAt(written, values, order, j);
    AddedReads(key, values);
  }

  lemma {:induction false} MissingAssigns(written: set<string>, values: map<string, string>, order: seq<string>, key: string)
    requires (forall k :: k in order ==> k in values) && key in order && key !in written
    ensures Assignment(key, values[key]) in Missing(written, values, order)
  {
    var init, last := order[..|order| - 1], order[|order| - 1];
    if key != last {
      MissingAssigns(written, values, init, key);
    }
  }

  lemma NewBodyHasNoHeaders(body: Lines, values: map<string, string>, order: seq<string>)
    requires Patchable(values) && OrderOf(order, values) && NoHeaders(body)
    ensures NoHeaders(NewBody(body, values, order))
  {
    forall l | l in NewBody(body, values, order)
      ensures !HeaderLine(l)
    {
      NewBodyLine(body, values, order, l);
    }
  }

  /** A line of the new body is one of the body's, or an assignment. */
  lemma NewBodyLine(body: Lines, values: map<string, string>, order: seq<string>, line: string)
    requires Patchable(values) && OrderOf(order, values) && line in NewBody(body, values, order)
    ensures HeaderLine(line) ==> line in body
    ensures (forall l :: l in body ==> '\n' !in l) ==> '\n' !in line
  {
    if line in Replaced(body, values) {
      var i: nat :| i < |body| && Replaced(body, values)[i] == line;
      ReplacedKeys(body, values, i);
    } else {
      var missing := Missing(Assigned(body, values), values, order);
      var j: nat :| j < |missing| && missing[j] == line;
      MissingReads(Assigned(body, values), values, order, j);
    }
  }

  // ------------------------------------------------------------ the document

  /** Where the daemon table opens and where its lines end, as TOML has it. */
  ghost function TableStart(lines: Lines): (r: nat)
    ensures r <= |lines| && (r < |lines| ==> DaemonHeader(lines[r])) && forall j :: 0 <= j < r ==> !DaemonHeader(lines[j])
  {
    Find(DaemonHeader, lines, 0)
  }

  ghost function TableEnd(lines: Lines): (r: nat)
    requires TableStart(lines) < |lines|
    ensures TableStart(lines) < r <= |lines| && (r < |lines| ==> HeaderLine(lines[r]))
    ensures forall j :: TableStart(lines) < j < r ==> !HeaderLine(lines[j])
  {
    Find(HeaderLine, lines, TableStart(lines) + 1)
  }

  ghost function TableBody(lines: Lines): Lines
    requires TableStart(lines) < |lines|
  {
    lines[TableStart(lines) + 1..TableEnd(lines)]
  }

  /** TOML v1.0.0, sections "Table" and "Keys": no table twice, no key twice in a table. */
  ghost predicate ValidDocument(lines: Lines) {
    && AtMostOne(DaemonHeader, lines)
    && (TableStart(lines) < |lines| ==> UniqueKeys(TableBody(lines)))
  }

  /**
   The headers that matter are spelled as the source expects: the daemon header is
   exactly [daemon], and the one after it ends with a bracket (no trailing comment)
   unless every patched key is already there.
   */
  ghost predicate Recognised(lines: Lines, values: map<string, string>) {
    TableStart(lines) < |lines| ==>
      && DaemonLine(lines[TableStart(lines)])
      && (TableEnd(lines) == |lines| || Closed(lines[TableEnd(lines)]) || AllAssigned(TableBody(lines), values))
  }

  ghost predicate AllAssigned(body: Lines, values: map<string, string>) {
    forall k :: k in values ==> Assigns(body, k)
  }

  lemma OneDaemonLine(lines: Lines)
    requires AtMostOne(DaemonHeader, lines)
    ensures AtMostOne(DaemonLine, lines)
    ensures Opening(lines) == if TableStart(lines) < |lines| && DaemonLine(lines[TableStart(lines)]) then TableStart(lines) else |lines|
  {
    forall i | 0 <= i < |lines|
      ensures DaemonLine(lines[i]) ==> DaemonHeader(lines[i])
    {
      DaemonLineIsHeader(lines[i]);
    }
  }

  /** The document around its daemon table. */
  lemma ReadValid(lines: Lines)
    requires ValidDocument(lines) && TableStart(lines) < |lines|
    ensures var before, after := Read(lines[..TableStart(lines)]), ReadOn([], lines[TableEnd(lines)..]);
            && !HasDaemon(before) && !HasDaemon(after)
            && Read(lines) == before + [Section(Table("daemon"), BindingsOf(TableBody(lines)))] + after
  {
    var r, e := TableStart(lines), TableEnd(lines);
    Pieces(lines, r, e);
    ReadAround(lines[..r], lines[r], lines[r + 1..e], lines[e..]);
    NoDaemonBefore(lines, r);
    NoDaemonAfter(lines, e);
  }

  lemma NoDaemonBefore(lines: Lines, r: nat)
    requires r == TableStart(lines)
    ensures !HasDaemon(Read(lines[..r]))
  {
    DaemonIsRead([Section(Top, map[])], lines[..r]);
  }

  lemma NoDaemonAfter(lines: Lines, e: nat)
    requires AtMostOne(DaemonHeader, lines) && TableStart(lines) < e <= |lines|
    ensures !HasDaemon(ReadOn([], lines[e..]))
  {
    DaemonIsRead([], lines[e..]);
    var rest := lines[e..];
    forall i | 0 <= i < |rest|
      ensures !DaemonHeader(rest[i])
    {
      assert rest[i] == lines[e + i];
    }
  }

  /** The patched document, when the source finds the table. */
  lemma PatchedForm(lines: Lines, values: map<string, string>, order: seq<string>)
    requires AtMostOne(DaemonHeader, lines) && OrderOf(order, values)
    requires TableStart(lines) < |lines| && DaemonLine(lines[TableStart(lines)])
    ensures TableEnd(lines) <= Closing(lines)
    ensures TableEnd(lines) == |lines| || Closed(lines[TableEnd(lines)]) <==> Closing(lines) == TableEnd(lines)
    ensures PatchLines(lines, values, order)
            == lines[..TableStart(lines) + 1] + NewBody(lines[TableStart(lines) + 1..Closing(lines)], values, order)
               + lines[Closing(lines)..]
  {
    OneDaemonLine(lines);
    ClosingIsLater(lines);
  }

  lemma Pieces(lines: Lines, r: nat, e: nat)
    requires r < e <= |lines|
    ensures lines == lines[..r] + [lines[r]] + lines[r + 1..e] + lines[e..]
    ensures lines[..r + 1] == lines[..r] + [lines[r]]
  {
  }

  lemma UpdateAround(before: seq<Section>, bindings: map<string, string>, after: seq<Section>, values: map<string, string>)
    requires !HasDaemon(before) && !HasDaemon(after)
    ensures Update(before + [Section(Table("daemon"), bindings)] + after, values)
            == before + [Section(Table("daemon"), bindings + values)] + after
  {
    var s := before + [Section(Table("daemon"), bindings)] + after;
    assert s[|before|] in s && IsDaemon(s[|before|]);
    var t := before + [Section(Table("daemon"), bindings + values)] + after;
    forall i | 0 <= i < |s|
      ensures (if IsDaemon(s[i]) then s[i].(bindings := s[i].bindings + values) else s[i]) == t[i]
    {
      if i < |before| {
        assert s[i] == before[i];
      } else if i > |before| {
        assert s[i] == after[i - |before| - 1];
      }
    }
  }

  /** Only the daemon section differs: one side has key in it, the other does not. */
  lemma SectionsDiffer(before: seq<Section>, a: map<string, string>, b: map<string, string>, x: seq<Section>, y: seq<Section>, key: string)
    requires key in a && key !in b
    ensures before + [Section(Table("daemon"), a)] + x != before + [Section(Table("daemon"), b)] + y
  {
    assert (before + [Section(Table("daemon"), a)] + x)[|before|].bindings == a;
    assert (before + [Section(Table("daemon"), b)] + y)[|before|].bindings == b;
  }

  /** A daemon table appended at the end. */
  lemma AppendedReads(lines: Lines, values: map<string, string>, order: seq<string>)
    requires Patchable(values) && OrderOf(order, values)
    ensures Read(lines + ["[daemon]"] + Missing({}, values, order)) == Read(lines) + [Section(Table("daemon"), values)]
  {
    var header, missing := "[daemon]", Missing({}, values, order);
    TrimOfTrimmed(header);
    DaemonLineIsHeader(header);
    NewTableBody(values, order);
    ReadAround(lines, header, missing, []);
    WithNothing(lines + [header] + missing);
    WithNothing(Read(lines) + [Section(Table("daemon"), values)]);
  }

  lemma WithNothing<T>(s: seq<T>)
    ensures s + [] == s
  {
  }

  lemma NewTableBody(values: map<string, string>, order: seq<string>)
    requires Patchable(values) && OrderOf(order, values)
    ensures NoHeaders(Missing({}, values, order)) && BindingsOf(Missing({}, values, order)) == values
  {
    forall j: nat | j < |Missing({}, values, order)|
      ensures !HeaderLine(Missing({}, values, order)[j])
    {
      MissingReads({}, values, order, j);
    }
    var missing := Missing({}, values, order);
    assert [] + missing == missing;
    BindingsOfMissing([], {}, values, order);
    GivenIsAll(values, order);
  }

  lemma GivenIsAll(values: map<string, string>, order: seq<string>)
    requires forall k :: k in order <==> k in values
    ensures map[] + Given(values, {}, order) == values
  {
  }

  lemma UpdateWithoutDaemon(sections: seq<Section>, values: map<string, string>)
    requires !HasDaemon(sections)
    ensures Update(sections, values) == sections + [Section(Table("daemon"), values)]
  {
    assert forall i :: 0 <= i < |sections| ==> !IsDaemon(sections[i]);
  }

  /** No daemon table: one is created at the end. */
  lemma NewTable(lines: Lines, values: map<string, string>, order: seq<string>)
    requires ValidDocument(lines) && Patchable(values) && OrderOf(order, values) && TableStart(lines) == |lines|
    ensures Read(PatchLines(lines, values, order)) == Update(Read(lines), values)
  {
    OneDaemonLine(lines);
    AppendedReads(lines, values, order);
    DaemonIsRead([Section(Top, map[])], lines);
    UpdateWithoutDaemon(Read(lines), values);
  }

  /** A daemon header spelled otherwise is overlooked: the document gets a second daemon table. */
  lemma SecondTable(lines: Lines, values: map<string, string>, order: seq<string>)
    requires ValidDocument(lines) && Patchable(values) && OrderOf(order, values)
    requires TableStart(lines) < |lines| && !DaemonLine(lines[TableStart(lines)])
    ensures Read(PatchLines(lines, values, order)) == Read(lines) + [Section(Table("daemon"), values)]
    ensures Read(PatchLines(lines, values, order)) != Update(Read(lines), values)
  {
    OneDaemonLine(lines);
    AppendedReads(lines, values, order);
    ReadValid(lines);
    UpdateAround(Read(lines[..TableStart(lines)]), BindingsOf(TableBody(lines)), ReadOn([], lines[TableEnd(lines)..]), values);
  }

  lemma ReadPatched(lines: Lines, body: Lines, values: map<string, string>)
    requires ValidDocument(lines) && TableStart(lines) < |lines| && NoHeaders(body)
    requires BindingsOf(body) == BindingsOf(TableBody(lines)) + values
    ensures Read(lines[..TableStart(lines) + 1] + body + lines[TableEnd(lines)..]) == Update(Read(lines), values)
  {
    var r, e := TableStart(lines), TableEnd(lines);
    Pieces(lines, r, e);
    ReadValid(lines);
    ReadAround(lines[..r], lines[r], body, lines[e..]);
    UpdateAround(Read(lines[..r]), BindingsOf(TableBody(lines)), ReadOn([], lines[e..]), values);
  }

  /** The section ends where the source thinks it does. */
  lemma ClosedTable(lines: Lines, values: map<string, string>, order: seq<string>)
    requires ValidDocument(lines) && Patchable(values) && OrderOf(order, values)
    requires TableStart(lines) < |lines| && DaemonLine(lines[TableStart(lines)])
    requires TableEnd(lines) == |lines| || Closed(lines[TableEnd(lines)])
    ensures Read(PatchLines(lines, values, order)) == Update(Read(lines), values)
  {
    PatchedForm(lines, values, order);
    var body := TableBody(lines);
    NoHeadersInside(lines);
    NewBodyHasNoHeaders(body, values, order);
    NewBodyBinds(body, values, order);
    ReadPatched(lines, NewBody(body, values, order), values);
  }

  lemma ClosingIsLater(lines: Lines)
    requires TableStart(lines) < |lines| && Opening(lines) == TableStart(lines)
    ensures Closing(lines) >= TableEnd(lines)
    ensures TableEnd(lines) == |lines| || Closed(lines[TableEnd(lines)]) <==> Closing(lines) == TableEnd(lines)
  {
    if Closing(lines) < |lines| {
      DaemonLineIsHeader(lines[Closing(lines)]);
    }
  }

  lemma NoHeadersInside(lines: Lines)
    requires TableStart(lines) < |lines|
    ensures NoHeaders(TableBody(lines))
  {
  }

  /** With every key found in the table, what follows is left alone even past its end. */
  lemma {:induction false} ReplacedSplit(body: Lines, rest: Lines, values: map<string, string>)
    requires AllAssigned(body, values)
    ensures Replaced(body + rest, values) == Replaced(body, values) + rest
    ensures AllAssigned(body + rest, values)
    decreases |rest|
  {
    if rest == [] {
      assert body + [] == body && Replaced(body, values) + [] == Replaced(body, values);
    } else {
      var init, line := rest[..|rest| - 1], rest[|rest| - 1];
      ReplacedSplit(body, init, values);
      assert body + rest == body + init + [line];
      ReplacedGrows(body + init, values, line);
      assert Replaced(body, values) + init + [line] == Replaced(body, values) + rest;
      forall k | k in values
        ensures Assigns(body + rest, k)
      {
        AssignsMore(body + init, line, k);
      }
    }
  }

  lemma {:induction false} NothingMissing(written: set<string>, values: map<string, string>, order: seq<string>)
    requires forall k :: k in order ==> k in values && k in written
    ensures Missing(written, values, order) == []
  {
    if order != [] {
      NothingMissing(written, values, order[..|order| - 1]);
    }
  }

  lemma NewBodyOfAssigned(body: Lines, rest: Lines, values: map<string, string>, order: seq<string>)
    requires AllAssigned(body, values) && OrderOf(order, values)
    ensures NewBody(body + rest, values, order) == Replaced(body, values) + rest
  {
    ReplacedSplit(body, rest, values);
    NothingMissing(Assigned(body + rest, values), values, order);
    assert Replaced(body, values) + rest + [] == Replaced(body, values) + rest;
  }

  lemma ReplacedHasNoHeaders(body: Lines, values: map<string, string>)
    requires Patchable(values) && NoHeaders(body)
    ensures NoHeaders(Replaced(body, values))
  {
    forall i: nat | i < |body|
      ensures !HeaderLine(Replaced(body, values)[i])
    {
      ReplacedKeys(body, values, i);
    }
  }

  lemma RestrictedToAll(body: Lines, values: map<string, string>)
    requires AllAssigned(body, values)
    ensures Restricted(values, Assigned(body, values)) == values
  {
  }

  lemma AssignedTable(lines: Lines, values: map<string, string>, order: seq<string>)
    requires ValidDocument(lines) && Patchable(values) && OrderOf(order, values)
    requires TableStart(lines) < |lines| && DaemonLine(lines[TableStart(lines)])
    requires AllAssigned(TableBody(lines), values)
    ensures Read(PatchLines(lines, values, order)) == Update(Read(lines), values)
  {
    hide KeyOf, HeaderLine, HeaderOf, Closed, DaemonLine, Replaced, Missing, BindingsOf, ReadOn, Update, NewBody;
    PatchedForm(lines, values, order);
    var r, e, close := TableStart(lines), TableEnd(lines), Closing(lines);
    var body := TableBody(lines);
    Rejoin(lines, r, e, close, Replaced(body, values));
    NewBodyOfAssigned(body, lines[e..close], values, order);
    BindingsOfReplaced(body, values);
    RestrictedToAll(body, values);
    NoHeadersInside(lines);
    ReplacedHasNoHeaders(body, values);
    ReadPatched(lines, Replaced(body, values), values);
  }

  lemma Rejoin(lines: Lines, r: nat, e: nat, close: nat, body: Lines)
    requires r < e <= close <= |lines|
    ensures lines[r + 1..close] == lines[r + 1..e] + lines[e..close]
    ensures lines[..r + 1] + (body + lines[e..close]) + lines[close..] == lines[..r + 1] + body + lines[e..]
  {
  }

  lemma {:induction false} BoundKeys(body: Lines, key: string)
    requires NoHeaders(body)
    ensures key in BindingsOf(body) <==> Assigns(body, key)
  {
    if body != [] {
      var init, line := body[..|body| - 1], body[|body| - 1];
      BoundKeys(init, key);
      assert body == init + [line];
      AssignsMore(init, line, key);
    }
  }

  /** A new body that runs into the next header ends the table there. */
  lemma ReadOverrun(before: Lines, header: string, body: Lines, rest: Lines, after: Lines)
    requires HeaderLine(header) && NoHeaders(body) && rest != [] && HeaderLine(rest[0])
    ensures Read(before + [header] + (body + rest) + after)
            == Read(before) + [Section(HeaderOf(header), BindingsOf(body))] + ReadOn([], rest + after)
  {
    assert before + [header] + (body + rest) + after == before + [header] + body + (rest + after);
    assert (rest + after)[0] == rest[0];
    ReadAround(before, header, body, rest + after);
  }

  /** The part of the new body before the next header still lacks the key. */
  lemma OverrunBody(body: Lines, rest: Lines, values: map<string, string>, order: seq<string>, key: string)
    returns (now: Lines, later: Lines)
    requires Patchable(values) && OrderOf(order, values)
    requires NoHeaders(body) && !Assigns(body, key) && rest != [] && HeaderLine(rest[0])
    ensures NewBody(body + rest, values, order) == now + later
    ensures NoHeaders(now) && !Assigns(now, key) && later != [] && HeaderLine(later[0])
  {
    var whole := body + rest;
    var replaced, missing := Replaced(whole, values), Missing(Assigned(whole, values), values, order);
    now, later := replaced[..|body|], replaced[|body|..] + missing;
    assert replaced == replaced[..|body|] + replaced[|body|..];
    assert NewBody(whole, values, order) == now + later;
    forall i: nat | i < |body|
      ensures KeyOf(now[i]) != Some(key) && !HeaderLine(now[i])
    {
      assert whole[i] == body[i] && now[i] == replaced[i];
      ReplacedKeys(whole, values, i);
    }
    assert whole[|body|] == rest[0] && later[0] == replaced[|body|];
    ReplacedKeys(whole, values, |body|);
  }

  /** The source reads on into the next table: a key that the daemon table lacks does not get there. */
  lemma OverrunTable(lines: Lines, values: map<string, string>, order: seq<string>)
    requires ValidDocument(lines) && Patchable(values) && OrderOf(order, values)
    requires TableStart(lines) < |lines| && DaemonLine(lines[TableStart(lines)])
    requires TableEnd(lines) < |lines| && !Closed(lines[TableEnd(lines)]) && !AllAssigned(TableBody(lines), values)
    ensures Read(PatchLines(lines, values, order)) != Update(Read(lines), values)
  {
    var key :| key in values && !Assigns(TableBody(lines), key);
    OverrunLacks(lines, values, order, key);
  }

  lemma OverrunLacks(lines: Lines, values: map<string, string>, order: seq<string>, key: string)
    requires ValidDocument(lines) && Patchable(values) && OrderOf(order, values)
    requires TableStart(lines) < |lines| && DaemonLine(lines[TableStart(lines)])
    requires TableEnd(lines) < |lines| && !Closed(lines[TableEnd(lines)])
    requires key in values && !Assigns(TableBody(lines), key)
    ensures Read(PatchLines(lines, values, order)) != Update(Read(lines), values)
  {
    hide KeyOf, HeaderLine, Missing, Closed, Replaced, NewBody, Assigns, Update, ReadOn, Patchable;
    PatchedForm(lines, values, order);
    var r, e, close := TableStart(lines), TableEnd(lines), Closing(lines);
    var body, rest := TableBody(lines), lines[e..close];
    assert rest[0] == lines[e];
    NoHeadersInside(lines);
    Rejoin(lines, r, e, close, body);
    Pieces(lines, r, e);
    var now, later := OverrunBody(body, rest, values, order, key);
    ReadOverrun(lines[..r], lines[r], now, later, lines[close..]);
    LacksKey(lines, values, now, later + lines[close..], key);
  }

  lemma LacksKey(lines: Lines, values: map<string, string>, now: Lines, later: Lines, key: string)
    requires ValidDocument(lines) && TableStart(lines) < |lines| && NoHeaders(now)
    requires key in values && !Assigns(now, key)
    ensures Read(lines[..TableStart(lines)]) + [Section(Table("daemon"), BindingsOf(now))] + ReadOn([], later)
            != Update(Read(lines), values)
  {
    BoundKeys(now, key);
    ReadValid(lines);
    var before, after := Read(lines[..TableStart(lines)]), ReadOn([], lines[TableEnd(lines)..]);
    var was := BindingsOf(TableBody(lines));
    UpdateAround(before, was, after, values);
    SectionsDiffer(before, was + values, BindingsOf(now), after, ReadOn([], later), key);
  }

  /**
   The patch, as the document is read: exactly the daemon table gets exactly the
   values, everything else is read as before, whatever the order of the map --
   if and only if the source recognises the headers that matter.
   */
  lemma PatchIsTheUpdate(lines: Lines, values: map<string, string>, order: seq<string>)
    requires ValidDocument(lines) && Patchable(values) && OrderOf(order, values)
    ensures Read(PatchLines(lines, values, order)) == Update(Read(lines), values) <==> Recognised(lines, values)
  {
    if TableStart(lines) == |lines| {
      NewTable(lines, values, order);
    } else if !DaemonLine(lines[TableStart(lines)]) {
      SecondTable(lines, values, order);
    } else if TableEnd(lines) == |lines| || Closed(lines[TableEnd(lines)]) {
      ClosedTable(lines, values, order);
    } else if AllAssigned(TableBody(lines), values) {
      AssignedTable(lines, values, order);
    } else {
      OverrunTable(lines, values, order);
    }
  }

  // --------------------------------------------------------- orders and texts

  lemma {:induction false} ReadMissing(sections: seq<Section>, last: Section, written: set<string>, values: map<string, string>, order: seq<string>)
    requires Patchable(values) && forall k :: k in order ==> k in values
    ensures ReadOn(sections + [last], Missing(written, values, order))
            == sections + [last.(bindings := last.bindings + Given(values, written, order))]
  {
    hide KeyOf, HeaderLine, ValueOf;
    if order == [] {
      assert last.bindings + Given(values, written, order) == last.bindings;
    } else {
      var init, key := order[..|order| - 1], order[|order| - 1];
      assert order == init + [key];
      ReadMissing(sections, last, written, values, init);
      GivenGrows(last.bindings, values, written, init, key);
      if key in written {
        assert Missing(written, values, order) == Missing(written, values, init);
      } else {
        AddedReads(key, values);
        var line := Assignment(key, values[key]);
        ReadOneMore(sections + [last], Missing(written, values, init), line);
        var now := sections + [last.(bindings := last.bindings + Given(values, written, init))];
        assert now[..|now| - 1] == sections;
      }
    }
  }

  lemma ReadOneMore(sections: seq<Section>, lines: Lines, line: string)
    ensures ReadOn(sections, lines + [line]) == ReadLine(ReadOn(sections, lines), line)
  {
    assert (lines + [line])[..|lines|] == lines;
  }

  lemma ReadMissingAnyOrder(start: Lines, written: set<string>, values: map<string, string>, order: seq<string>, other: seq<string>)
    requires Patchable(values) && OrderOf(order, values) && OrderOf(other, values)
    ensures Read(start + Missing(written, values, order)) == Read(start + Missing(written, values, other))
  {
    var top := [Section(Top, map[])];
    DaemonIsRead(top, start);
    ReadOnConcat(top, start, Missing(written, values, order));
    ReadOnConcat(top, start, Missing(written, values, other));
    ReadMissingAfter(Read(start), written, values, order, other);
  }

  lemma ReadMissingAfter(s: seq<Section>, written: set<string>, values: map<string, string>, order: seq<string>, other: seq<string>)
    requires Patchable(values) && OrderOf(order, values) && OrderOf(other, values) && s != []
    ensures ReadOn(s, Missing(written, values, order)) == ReadOn(s, Missing(written, values, other))
  {
    var init, last := s[..|s| - 1], s[|s| - 1];
    assert s == init + [last];
    ReadMissing(init, last, written, values, order);
    ReadMissing(init, last, written, values, other);
    GivenInAnyOrder(values, written, order, other);
  }

  lemma GivenInAnyOrder(values: map<string, string>, written: set<string>, order: seq<string>, other: seq<string>)
    requires OrderOf(order, values) && OrderOf(other, values)
    ensures Given(values, written, order) == Given(values, written, other)
  {
  }

  /** What is read back does not depend on the iteration order of the map, recognised headers or not. */
  lemma OrderDoesNotMatter(lines: Lines, values: map<string, string>, order: seq<string>, other: seq<string>)
    requires Patchable(values) && OrderOf(order, values) && OrderOf(other, values)
    ensures Read(PatchLines(lines, values, order)) == Read(PatchLines(lines, values, other))
  {
    hide KeyOf, Missing, Assigned, ReadOn, Closed, DaemonLine, NoDuplicates;
    var d, e := Opening(lines), Closing(lines);
    if d == |lines| {
      ReadMissingAnyOrder(lines + ["[daemon]"], {}, values, order, other);
    } else {
      var body := lines[d + 1..e];
      var start := lines[..d + 1] + Replaced(body, values);
      var written := Assigned(body, values);
      ReadMissingAnyOrder(start, written, values, order, other);
      ReadThrough(lines[..d + 1], Replaced(body, values), Missing(written, values, order), lines[e..]);
      ReadThrough(lines[..d + 1], Replaced(body, values), Missing(written, values, other), lines[e..]);
    }
  }

  lemma ReadThrough(a: Lines, b: Lines, c: Lines, d: Lines)
    ensures Read(a + (b + c) + d) == ReadOn(Read(a + b + c), d)
  {
    assert a + (b + c) + d == a + b + c + d;
    ReadOnConcat([Section(Top, map[])], a + b + c, d);
  }

  /** The patched lines are lines: joining them with newlines and splitting gives them back. */
  lemma PatchedTextSplits(text: string, values: map<string, string>, order: seq<string>)
    requires Patchable(values) && OrderOf(order, values)
    ensures Split(PatchText(text, values, order), '\n') == PatchLines(Split(text, '\n'), values, order)
  {
    hide KeyOf, Replaced;
    var lines := Split(text, '\n');
    var d, e := Opening(lines), Closing(lines);
    var out := PatchLines(lines, values, order);
    forall l | l in out
      ensures '\n' !in l
    {
      if d == |lines| {
        if l in Missing({}, values, order) {
          var j: nat :| j < |Missing({}, values, order)| && Missing({}, values, order)[j] == l;
          MissingReads({}, values, order, j);
        }
      } else if l in NewBody(lines[d + 1..e], values, order) {
        NewBodyLine(lines[d + 1..e], values, order, l);
      }
    }
    SplitOfJoined(out, '\n');
  }

  /** At the level of the file: the text a patch writes reads as the update, exactly when the headers are recognised. */
  lemma PatchedTextReads(text: string, values: map<string, string>, order: seq<string>)
    requires ValidDocument(Split(text, '\n')) && Patchable(values) && OrderOf(order, values)
    ensures Read(Split(PatchText(text, values, order), '\n')) == Update(Read(Split(text, '\n')), values)
            <==> Recognised(Split(text, '\n'), values)
  {
    PatchedTextSplits(text, values, order);
    PatchIsTheUpdate(Split(text, '\n'), values, order);
  }

  // ------------------------------------------------------------ twice is once

  lemma NewBodyAssigns(body: Lines, values: map<string, string>, order: seq<string>)
    requires Patchable(values) && OrderOf(order, values)
    ensures AllAssigned(NewBody(body, values, order), values)
  {
    var now := NewBody(body, values, order);
    forall k | k in values
      ensures Assigns(now, k)
    {
      if Assigns(body, k) {
        var i: nat :| i < |body| && KeyOf(body[i]) == Some(k);
        ReplacedKeys(body, values, i);
        assert KeyOf(now[i]) == Some(k);
      } else {
        AddedReads(k, values);
        MissingAssigns(Assigned(body, values), values, order, k);
        var line := Assignment(k, values[k]);
        assert line in now;
        var i :| 0 <= i < |now| && now[i] == line;
        assert KeyOf(now[i]) == Some(k);
      }
    }
  }

  /** A line that a second pass would rewrite is already what it would write. */
  lemma StableLine(body: Lines, values: map<string, string>, order: seq<string>, i: nat)
    requires Patchable(values) && OrderOf(order, values) && i < |NewBody(body, values, order)|
    ensures NewLine(NewBody(body, values, order), values, i) == NewBody(body, values, order)[i]
  {
    hide KeyOf, HeaderLine, Missing, Start, Indent;
    if Replaces(NewBody(body, values, order), values, i) {
      if i < |body| {
        ReplacedKeys(body, values, i);
        FirstStaysFirst(body, values, order, i);
        RewrittenReads(body[i], values);
      } else {
        MissingReads(Assigned(body, values), values, order, i - |body|);
      }
    }
  }

  lemma FirstStaysFirst(body: Lines, values: map<string, string>, order: seq<string>, i: nat)
    requires Patchable(values) && OrderOf(order, values) && i < |body| && Replaces(NewBody(body, values, order), values, i)
    ensures Replaces(body, values, i)
  {
    var now := NewBody(body, values, order);
    forall j: nat | j <= i
      ensures KeyOf(now[j]) == KeyOf(body[j])
    {
      ReplacedKeys(body, values, j);
    }
  }

  lemma NewBodyStable(body: Lines, values: map<string, string>, order: seq<string>, other: seq<string>)
    requires Patchable(values) && OrderOf(order, values) && OrderOf(other, values)
    ensures NewBody(NewBody(body, values, order), values, other) == NewBody(body, values, order)
  {
    var now := NewBody(body, values, order);
    forall i: nat | i < |now|
      ensures NewLine(now, values, i) == now[i]
    {
      StableLine(body, values, order, i);
    }
    assert Replaced(now, values) == now;
    NewBodyAssigns(body, values, order);
    NothingMissing(Assigned(now, values), values, other);
    WithNothing(now);
  }

  /** The source finds the section again, where it was. */
  lemma SectionFound(before: Lines, header: string, body: Lines, after: Lines)
    requires DaemonLine(header) && forall l :: l in before ==> !DaemonLine(l)
    requires (forall l :: l in body ==> !Closed(l)) && (after == [] || Closed(after[0]))
    ensures var lines := before + [header] + body + after;
            && Opening(lines) == |before| && Closing(lines) == |before| + 1 + |body|
            && lines[..|before| + 1] == before + [header] && lines[|before| + 1..|before| + 1 + |body|] == body
            && lines[|before| + 1 + |body|..] == after
  {
    hide Closed, DaemonLine;
    var lines := before + [header] + body + after;
    var d, e := |before|, |before| + 1 + |body|;
    assert lines[d] == header;
    assert forall i :: 0 <= i < d ==> lines[i] == before[i];
    assert lines[d + 1..e] == body && lines[e..] == after;
    forall i | d < i < e
      ensures !Closed(lines[i])
    {
      assert lines[i] == body[i - d - 1];
    }
    if after != [] {
      assert lines[e] == after[0];
    }
  }

  lemma NewBodyIsOpen(body: Lines, values: map<string, string>, order: seq<string>)
    requires Patchable(values) && OrderOf(order, values) && forall l :: l in body ==> !Closed(l)
    ensures forall l :: l in NewBody(body, values, order) ==> !Closed(l)
  {
    forall l | l in NewBody(body, values, order)
      ensures !Closed(l)
    {
      NewBodyLine(body, values, order, l);
      DaemonLineIsHeader(l);
    }
  }

  lemma PatchAgain(before: Lines, header: string, body: Lines, after: Lines, values: map<string, string>,
                   order: seq<string>, other: seq<string>)
    requires Patchable(values) && OrderOf(order, values) && OrderOf(other, values)
    requires DaemonLine(header) && forall l :: l in before ==> !DaemonLine(l)
    requires (forall l :: l in body ==> !Closed(l)) && (after == [] || Closed(after[0]))
    ensures var once := before + [header] + NewBody(body, values, order) + after; PatchLines(once, values, other) == once
  {
    NewBodyIsOpen(body, values, order);
    SectionFound(before, header, NewBody(body, values, order), after);
    NewBodyStable(body, values, order, other);
  }

  /** Patching twice is patching once, whatever the two orders of the map. */
  lemma PatchTwice(lines: Lines, values: map<string, string>, order: seq<string>, other: seq<string>)
    requires Patchable(values) && OrderOf(order, values) && OrderOf(other, values)
    ensures PatchLines(PatchLines(lines, values, order), values, other) == PatchLines(lines, values, order)
  {
    hide KeyOf, Missing, Replaced, Assigned, Patchable;
    var d, e := Opening(lines), Closing(lines);
    if d == |lines| {
      TrimOfTrimmed("[daemon]");
      NewBodyOfNothing(values, order);
      PatchAgain(lines, "[daemon]", [], [], values, order, other);
      WithNothing(PatchLines(lines, values, order));
    } else {
      Pieces(lines, d, e);
      PatchAgain(lines[..d], lines[d], lines[d + 1..e], lines[e..], values, order, other);
    }
  }

  lemma NewBodyOfNothing(values: map<string, string>, order: seq<string>)
    requires OrderOf(order, values)
    ensures NewBody([], values, order) == Missing({}, values, order)
  {
    assert Replaced([], values) == [] && Assigned([], values) == {};
    assert [] + Missing({}, values, order) == Missing({}, values, order);
  }

  lemma PatchTextTwice(text: string, values: map<string, string>, order: seq<string>, other: seq<string>)
    requires Patchable(values) && OrderOf(order, values) && OrderOf(other, values)
    ensures PatchText(PatchText(text, values, order), values, other) == PatchText(text, values, order)
  {
    PatchedTextSplits(text, values, order);
    PatchTwice(Split(text, '\n'), values, order, other);
  }

  // ----------------------------------------------------------- untouched lines

  /** The lines that assign no patched key: comments, headers, blank lines, other keys. */
  function Unpatched(lines: Lines, values: map<string, string>): Lines {
    if lines == [] then []
    else
      var line := lines[|lines| - 1];
      Unpatched(lines[..|lines| - 1], values) + if KeyOf(line).Some? && KeyOf(line).value in values then [] else [line]
  }

  lemma {:induction false} UnpatchedConcat(a: Lines, b: Lines, values: map<string, string>)
    ensures Unpatched(a + b, values) == Unpatched(a, values) + Unpatched(b, values)
  {
    if b == [] {
      assert a + b == a;
    } else {
      ConcatLast(a, b);
      UnpatchedConcat(a, b[..|b| - 1], values);
    }
  }

  lemma {:induction false} UnpatchedReplaced(body: Lines, values: map<string, string>)
    requires Patchable(values)
    ensures Unpatched(Replaced(body, values), values) == Unpatched(body, values)
  {
    if body == [] {
      assert Replaced(body, values) == [];
    } else {
      var init, line := body[..|body| - 1], body[|body| - 1];
      assert body == init + [line];
      UnpatchedReplaced(init, values);
      ReplacedGrows(init, values, line);
      if IsFirst(line, values, Assigned(init, values)) {
        RewrittenReads(line, values);
      }
    }
  }

  lemma {:induction false} UnpatchedNone(lines: Lines, values: map<string, string>)
    requires forall l :: l in lines ==> KeyOf(l).Some? && KeyOf(l).value in values
    ensures Unpatched(lines, values) == []
  {
    if lines != [] {
      UnpatchedNone(lines[..|lines| - 1], values);
    }
  }

  lemma UnpatchedMissing(written: set<string>, values: map<string, string>, order: seq<string>)
    requires Patchable(values) && OrderOf(order, values)
    ensures Unpatched(Missing(written, values, order), values) == []
  {
    var missing := Missing(written, values, order);
    forall j: nat | j < |missing|
      ensures KeyOf(missing[j]).Some? && KeyOf(missing[j]).value in values
    {
      MissingReads(written, values, order, j);
    }
    UnpatchedNone(missing, values);
  }

  lemma NewHeaderIsUnpatched(values: map<string, string>)
    ensures Unpatched(["[daemon]"], values) == ["[daemon]"]
  {
    TrimOfTrimmed("[daemon]");
    DaemonLineIsHeader("[daemon]");
    assert ["[daemon]"][..0] == [];
  }

  /** Taking the assignments of patched keys away, a patch leaves every line as it was and where it was; at most a header is added. */
  lemma UntouchedLinesSurvive(lines: Lines, values: map<string, string>, order: seq<string>)
    requires Patchable(values) && OrderOf(order, values)
    ensures Unpatched(PatchLines(lines, values, order), values)
            == Unpatched(lines, values) + if exists l :: l in lines && DaemonLine(l) then [] else ["[daemon]"]
  {
    hide KeyOf, HeaderLine, Missing, Replaced, Closed, Assigned, Unpatched;
    var d, e := Opening(lines), Closing(lines);
    if d == |lines| {
      NewHeaderIsUnpatched(values);
      UnpatchedConcat(lines, ["[daemon]"], values);
      UnpatchedConcat(lines + ["[daemon]"], Missing({}, values, order), values);
      UnpatchedMissing({}, values, order);
    } else {
      assert lines[d] in lines;
      var body := lines[d + 1..e];
      UnpatchedReplaced(body, values);
      UnpatchedMissing(Assigned(body, values), values, order);
      UnpatchedConcat(Replaced(body, values), Missing(Assigned(body, values), values, order), values);
      UnpatchedAround(lines[..d + 1], NewBody(body, values, order), body, lines[e..], values);
      Pieces(lines, d, e);
      WithNothing(Unpatched(lines, values));
    }
  }

  lemma UnpatchedAround(a: Lines, now: Lines, body: Lines, c: Lines, values: map<string, string>)
    requires Unpatched(now, values) == Unpatched(body, values)
    ensures Unpatched(a + now + c, values) == Unpatched(a + body + c, values)
  {
    UnpatchedConcat(a + now, c, values);
    UnpatchedConcat(a, now, values);
    UnpatchedConcat(a + body, c, values);
    UnpatchedConcat(a, body, values);
  }

  // -------------------------------------------------------------- where it fails

  lemma Starts(line: string, c: char)
    requires |line| > 1 && line[0] == c && !IsSpace(c) && !IsSpace(line[|line| - 1])
    ensures Trim(line) == line && (HeaderLine(line) <==> c == '[')
    ensures DaemonLine(line) <==> line == "[daemon]"
    ensures Closed(line) <==> c == '[' && line[|line| - 1] == ']'
  {
    TrimOfTrimmed(line);
  }

  lemma NamesDaemon(line: string)
    requires |line| > 8 && line[..8] == "[daemon]" && !IsSpace(line[|line| - 1])
    ensures DaemonHeader(line)
  {
    assert line[0] == line[..8][0] && line[1] == line[..8][1];
    Starts(line, '[');
    var rest := line[1..];
    assert rest[..7] == line[..8][1..] == "daemon]";
    InDaemonBrackets(rest);
    TrimOfTrimmed("daemon");
  }

  lemma InDaemonBrackets(rest: string)
    requires |rest| >= 7 && rest[..7] == "daemon]"
    ensures InBrackets(rest) == "daemon"
  {
    var name := "daemon]";
    assert name[6] == ']' && forall i :: 0 <= i < 6 ==> name[i] != ']';
    assert forall i :: 0 <= i < 7 ==> rest[i] == rest[..7][i];
    assert rest[6] == ']';
    assert Ahead(rest, NotBracket, 0) == 6;
    assert rest[..6] == name[..6];
  }

  lemma OnlyTable(header: string, line: string, values: map<string, string>)
    requires DaemonHeader(header) && !HeaderLine(line)
    ensures ValidDocument([header, line]) && (Recognised([header, line], values) <==> DaemonLine(header))
  {
    var lines := [header, line];
    assert TableStart(lines) == 0 && TableEnd(lines) == 2;
    assert TableBody(lines) == [line];
  }

  lemma EmptyTable(header: string, next: string, line: string)
    requires DaemonLine(header) && HeaderLine(next) && !DaemonHeader(next) && !HeaderLine(line)
    ensures var lines := [header, next, line];
            TableStart(lines) == 0 && TableEnd(lines) == 1 && TableBody(lines) == [] && ValidDocument(lines)
  {
    hide HeaderLine, HeaderOf, DaemonLine;
    DaemonLineIsHeader(header);
  }

  lemma EmptyTableThenAnother(header: string, next: string, line: string, values: map<string, string>, key: string)
    requires DaemonLine(header) && HeaderLine(next) && !DaemonHeader(next) && !HeaderLine(line) && key in values
    ensures Recognised([header, next, line], values) <==> Closed(next)
  {
    EmptyTable(header, next, line);
    assert !Assigns([], key);
  }

  lemma CommentedDaemonHeaderReads()
    ensures DaemonHeader("[daemon] # this host") && !DaemonLine("[daemon] # this host")
  {
    var header := "[daemon] # this host";
    assert header[..8] == "[daemon]" && header[|header| - 1] == 't';
    assert |header| != |"[daemon]"|;
    NamesDaemon(header);
    Starts(header, '[');
  }

  lemma CommentedNextHeaderReads()
    ensures var next := "[cloud] # remote"; HeaderLine(next) && !DaemonHeader(next) && !Closed(next)
  {
    var next := "[cloud] # remote";
    Starts(next, '[');
    OtherTable(next);
  }

  lemma PlainLineReads()
    ensures !HeaderLine("id = 1") && DaemonLine("[daemon]")
  {
    Starts("id = 1", 'i');
    TrimOfTrimmed("[daemon]");
  }

  /** A comment after the daemon header is valid TOML; the patch of any keys makes a second daemon table. */
  lemma CommentedDaemonHeader(values: map<string, string>)
    ensures var lines := ["[daemon] # this host", "id = 1"]; ValidDocument(lines) && !Recognised(lines, values)
  {
    CommentedDaemonHeaderReads();
    PlainLineReads();
    OnlyTable("[daemon] # this host", "id = 1", values);
  }

  /** A comment after the next header is valid TOML; a key that [daemon] lacks goes into that table. */
  lemma CommentedNextHeader(values: map<string, string>, key: string)
    requires key in values
    ensures var lines := ["[daemon]", "[cloud] # remote", "id = 1"]; ValidDocument(lines) && !Recognised(lines, values)
  {
    CommentedNextHeaderReads();
    PlainLineReads();
    EmptyTable("[daemon]", "[cloud] # remote", "id = 1");
    EmptyTableThenAnother("[daemon]", "[cloud] # remote", "id = 1", values, key);
  }

  lemma OtherTable(line: string)
    requires HeaderLine(line) && |line| > 2 && line == Trim(line) && line[1] == 'c'
    ensures !DaemonHeader(line)
  {
    var rest := line[1..];
    var name := InBrackets(rest);
    assert rest[0] == 'c';
    if Trim(name) != "" {
      assert name[0] == 'c';
      assert Ahead(name, IsSpace, 0) == 0;
      assert Trim(name)[0] == 'c';
    }
    assert "daemon"[0] == 'd';
  }
}
