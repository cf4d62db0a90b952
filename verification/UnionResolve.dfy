// The conflict resolver of scripts/ci-bot.py (181-207): which texts it resolves, to
// what, and that resolving again changes nothing.
module UnionResolve {
  import opened Results

  // ---- lines ------------------------------------------------------------------------

  /** The white space that str.strip removes. */
  predicate Stripped(c: char) {
    || '\U{9}' <= c <= '\U{d}' || '\U{1c}' <= c <= '\U{20}' || c == '\U{85}' || c == '\U{a0}' || c == '\U{1680}'
    || '\U{2000}' <= c <= '\U{200a}' || c == '\U{2028}' || c == '\U{2029}' || c == '\U{202f}' || c == '\U{205f}'
        || c == '\U{3000}'
  }

  predicate Blank(line: string) { forall c <- line :: Stripped(c) }

  /** The line without the newlines at its end. */
  function Bare(line: string): string
    decreases |line|
  {
    if line != "" && line[|line| - 1] == '\n' then Bare(line[..|line| - 1]) else line
  }

  predicate Opens(line: string) { "<<<<<<< " <= line || Bare(line) == "<<<<<<<" }

  predicate StartsBase(line: string) { "|||||||" <= line }

  predicate Separates(line: string) { Bare(line) == "=======" }

  predicate Closes(line: string) { ">>>>>>>" <= line }

  // ---- the machine ----------------------------------------------------------------------

  datatype Part = Outside | InOurs | InBase | InTheirs

  datatype State = State(out: seq<string>, ours: seq<string>, theirs: seq<string>, part: Part)

  const START := State([], [], [], Outside)

  /** The lines of theirs that ours lacks, and the blank ones. */
  function Lacking(ours: seq<string>, theirs: seq<string>): seq<string>
    decreases |theirs|
  {
    if theirs == [] then []
    else
      var last := theirs[|theirs| - 1];
      Lacking(ours, theirs[..|theirs| - 1]) + if last !in ours || Blank(last) then [last] else []
  }

  function Merged(ours: seq<string>, theirs: seq<string>): seq<string> { ours + Lacking(ours, theirs) }

  function Step(s: State, line: string): Option<State> {
    if Opens(line) then
      if s.part.Outside? then Some(State(s.out, [], [], InOurs)) else None
    else if !s.part.Outside? && StartsBase(line) then Some(s.(part := InBase))
    else if !s.part.Outside? && Separates(line) then Some(s.(part := InTheirs))
    else if s.part.InTheirs? && Closes(line) then Some(s.(out := s.out + Merged(s.ours, s.theirs), part := Outside))
    else
      match s.part
      case InOurs => Some(s.(ours := s.ours + [line]))
      case InTheirs => Some(s.(theirs := s.theirs + [line]))
      case InBase => Some(s)
      case Outside => Some(s.(out := s.out + [line]))
  }

  /** The state after some lines; None once a block opened inside another. */
  function Scan(s: State, lines: seq<string>): Option<State>
    decreases |lines|
  {
    if lines == [] then Some(s)
    else
      match Scan(s, lines[..|lines| - 1])
      case None => None
      case Some(t) => Step(t, lines[|lines| - 1])
  }

  function Union(lines: seq<string>): Option<seq<string>> {
    match Scan(START, lines)
    case None => None
    case Some(s) => if s.part.Outside? then Some(s.out) else None
  }

  method KeepLacking(ours: seq<string>, theirs: seq<string>) returns (kept: seq<string>)
    ensures kept == Lacking(ours, theirs)
  {
    var known := set l <- ours :: l;
    kept := [];
    for i := 0 to |theirs|
      invariant kept == Lacking(ours, theirs[..i])
    {
      assert theirs[..i + 1][..i] == theirs[..i];
      if theirs[i] !in known || Blank(theirs[i]) {
        kept := kept + [theirs[i]];
      }
    }
    assert theirs[..|theirs|] == theirs;
  }

  lemma ScanOne(s: State, lines: seq<string>, i: nat)
    requires i < |lines|
    ensures Scan(s, lines[..i + 1]) == match Scan(s, lines[..i]) case None => None case Some(t) => Step(t, lines[i])
  {
    hide Step;
    assert lines[..i + 1][..i] == lines[..i];
  }

  lemma {:induction false} ScanFails(s: State, lines: seq<string>, i: nat)
    requires i <= |lines| && Scan(s, lines[..i]).None?
    ensures Scan(s, lines).None?
    decreases |lines| - i
  {
    if i == |lines| {
      assert lines[..i] == lines;
    } else {
      ScanOne(s, lines, i);
      ScanFails(s, lines, i + 1);
    }
  }

  method ResolveLines(lines: seq<string>) returns (merged: Option<seq<string>>)
    ensures merged == Union(lines)
  {
    hide Scan, Opens, StartsBase, Separates, Closes, Lacking;
    var out, ours, theirs, part := [], [], [], Outside;
    ScanNothing(START, lines);
    for i := 0 to |lines|
      invariant Scan(START, lines[..i]) == Some(State(out, ours, theirs, part))
    {
      var line := lines[i];
      ScanOne(START, lines, i);
      if Opens(line) {
        if !part.Outside? {
          ScanFails(START, lines, i + 1);
          return None;
        }
        part, ours, theirs := InOurs, [], [];
      } else if !part.Outside? && StartsBase(line) {
        part := InBase;
      } else if !part.Outside? && Separates(line) {
        part := InTheirs;
      } else if part.InTheirs? && Closes(line) {
        var kept := KeepLacking(ours, theirs);
        out := out + (ours + kept);
        part := Outside;
      } else if part.InOurs? {
        ours := ours + [line];
      } else if part.InTheirs? {
        theirs := theirs + [line];
      } else if part.Outside? {
        out := out + [line];
      }
    }
    assert lines[..|lines|] == lines;
    merged := if part.Outside? then Some(out) else None;
  }

  lemma ScanNothing(s: State, lines: seq<string>)
    ensures Scan(s, lines[..0]) == Some(s)
  {
  }

  // ---- documents ------------------------------------------------------------------------------

  /** A part of a block after ours: a base part or a part of theirs, under its marker. */
  datatype Section = Section(marker: string, base: bool, lines: seq<string>)

  datatype Segment =
    | Plain(line: string)
    | Conflict(head: string, ours: seq<string>, sections: seq<Section>, tail: string)

  predicate InBlock(line: string) { !Opens(line) && !StartsBase(line) && !Separates(line) }

  predicate GoodSection(s: Section) {
    && !Opens(s.marker) && (if s.base then StartsBase(s.marker) else !StartsBase(s.marker) && Separates(s.marker))
    && forall l <- s.lines :: InBlock(l) && (s.base || !Closes(l))
  }

  predicate GoodSections(sections: seq<Section>) { forall s <- sections :: GoodSection(s) }

  /** A segment whose content is no marker where the marker would count. */
  predicate GoodSegment(g: Segment) {
    match g
    case Plain(line) => !Opens(line)
    case Conflict(head, ours, sections, tail) =>
      && Opens(head)
      && (forall l <- ours :: InBlock(l))
      && GoodSections(sections)
      && sections != [] && !sections[|sections| - 1].base
      && InBlock(tail) && Closes(tail)
  }

  predicate GoodDoc(doc: seq<Segment>) { forall g <- doc :: GoodSegment(g) }

  function RenderSections(sections: seq<Section>): seq<string>
    decreases |sections|
  {
    if sections == [] then []
    else
      var last := sections[|sections| - 1];
      RenderSections(sections[..|sections| - 1]) + ([last.marker] + last.lines)
  }

  /** All of theirs in a block. */
  function Theirs(sections: seq<Section>): seq<string>
    decreases |sections|
  {
    if sections == [] then []
    else
      var last := sections[|sections| - 1];
      Theirs(sections[..|sections| - 1]) + if last.base then [] else last.lines
  }

  function RenderSegment(g: Segment): seq<string> {
    match g
    case Plain(line) => [line]
    case Conflict(head, ours, sections, tail) => ([head] + ours) + RenderSections(sections) + [tail]
  }

  /** The text of a document. */
  function Render(doc: seq<Segment>): seq<string>
    decreases |doc|
  {
    if doc == [] then [] else Render(doc[..|doc| - 1]) + RenderSegment(doc[|doc| - 1])
  }

  function ResolvedSegment(g: Segment): seq<string> {
    match g
    case Plain(line) => [line]
    case Conflict(_, ours, sections, _) => Merged(ours, Theirs(sections))
  }

  /** What keeping both sides makes of it. */
  function Resolved(doc: seq<Segment>): seq<string>
    decreases |doc|
  {
    if doc == [] then [] else Resolved(doc[..|doc| - 1]) + ResolvedSegment(doc[|doc| - 1])
  }

  // ---- every document resolves ---------------------------------------------------------------

  lemma {:induction false} ScanAppend(s: State, a: seq<string>, b: seq<string>)
    ensures Scan(s, a + b) == match Scan(s, a) case None => None case Some(t) => Scan(t, b)
    decreases |b|
  {
    hide Step;
    if b == [] {
      assert a + b == a;
    } else {
      assert (a + b)[..|a + b| - 1] == a + b[..|b| - 1];
      ScanAppend(s, a, b[..|b| - 1]);
    }
  }

  lemma ScanThen(s: State, a: seq<string>, t: State, b: seq<string>)
    requires Scan(s, a) == Some(t)
    ensures Scan(s, a + b) == Scan(t, b)
  {
    ScanAppend(s, a, b);
  }

  lemma ScanLine(s: State, line: string)
    ensures Scan(s, [line]) == Step(s, line)
  {
    hide Step;
    assert [line][..0] == [];
    assert Scan(s, [line][..0]) == Some(s);
  }

  lemma Snoc<T>(lines: seq<T>)
    requires lines != []
    ensures lines == lines[..|lines| - 1] + [lines[|lines| - 1]]
  {
  }

  lemma {:induction false} ScanOurs(s: State, lines: seq<string>)
    requires s.part.InOurs? && forall l <- lines :: InBlock(l)
    ensures Scan(s, lines) == Some(s.(ours := s.ours + lines))
    decreases |lines|
  {
    hide Opens, StartsBase, Separates, Closes;
    if lines == [] {
      assert s.ours + lines == s.ours;
    } else {
      ScanOurs(s, lines[..|lines| - 1]);
      Snoc(lines);
      assert InBlock(lines[|lines| - 1]);
      assert s.ours + lines == s.ours + lines[..|lines| - 1] + [lines[|lines| - 1]];
    }
  }

  lemma {:induction false} ScanTheirs(s: State, lines: seq<string>)
    requires s.part.InTheirs? && forall l <- lines :: InBlock(l) && !Closes(l)
    ensures Scan(s, lines) == Some(s.(theirs := s.theirs + lines))
    decreases |lines|
  {
    hide Opens, StartsBase, Separates, Closes;
    if lines == [] {
      assert s.theirs + lines == s.theirs;
    } else {
      ScanTheirs(s, lines[..|lines| - 1]);
      Snoc(lines);
      assert InBlock(lines[|lines| - 1]);
      assert s.theirs + lines == s.theirs + lines[..|lines| - 1] + [lines[|lines| - 1]];
    }
  }

  lemma {:induction false} ScanBase(s: State, lines: seq<string>)
    requires s.part.InBase? && forall l <- lines :: InBlock(l)
    ensures Scan(s, lines) == Some(s)
    decreases |lines|
  {
    hide Opens, StartsBase, Separates, Closes;
    if lines == [] {
    } else {
      ScanBase(s, lines[..|lines| - 1]);
      assert InBlock(lines[|lines| - 1]);
    }
  }

  function PartAfter(sections: seq<Section>): Part {
    if sections == [] then InOurs else if sections[|sections| - 1].base then InBase else InTheirs
  }

  lemma ScanSection(s: State, section: Section)
    requires !s.part.Outside? && GoodSection(section)
    ensures Scan(s, [section.marker] + section.lines)
         == Some(s.(theirs := s.theirs + if section.base then [] else section.lines,
                    part := if section.base then InBase else InTheirs))
  {
    hide Opens, StartsBase, Separates, Closes, Scan;
    ScanLine(s, section.marker);
    if section.base {
      var t := s.(part := InBase);
      ScanThen(s, [section.marker], t, section.lines);
      ScanBase(t, section.lines);
      assert s.theirs + [] == s.theirs;
    } else {
      var t := s.(part := InTheirs);
      ScanThen(s, [section.marker], t, section.lines);
      ScanTheirs(t, section.lines);
    }
  }

  lemma {:induction false} ScanSections(s: State, sections: seq<Section>)
    requires s.part.InOurs? && s.theirs == [] && GoodSections(sections)
    ensures Scan(s, RenderSections(sections)) == Some(s.(theirs := Theirs(sections), part := PartAfter(sections)))
    decreases |sections|
  {
    hide Scan, GoodSection;
    if sections == [] {
      ScanNothing(s, []);
    } else {
      var last := sections[|sections| - 1];
      var before := sections[..|sections| - 1];
      ScanSections(s, before);
      var t := s.(theirs := Theirs(before), part := PartAfter(before));
      ScanThen(s, RenderSections(before), t, [last.marker] + last.lines);
      assert GoodSection(last);
      ScanSection(t, last);
    }
  }

  lemma ScanSegment(s: State, g: Segment)
    requires s.part.Outside? && GoodSegment(g)
    ensures Scan(s, RenderSegment(g)).Some?
    ensures var t := Scan(s, RenderSegment(g)).value; t.part.Outside? && t.out == s.out + ResolvedSegment(g)
  {
    hide Opens, StartsBase, Separates, Closes, Scan, GoodSections, RenderSections, Theirs, Lacking;
    match g {
      case Plain(line) => ScanLine(s, line);
      case Conflict(head, ours, sections, tail) =>
        ScanLine(s, head);
        var t := State(s.out, [], [], InOurs);
        ScanThen(s, [head], t, ours);
        ScanOurs(t, ours);
        var u := t.(ours := [] + ours);
        ScanThen(s, [head] + ours, u, RenderSections(sections));
        ScanSections(u, sections);
        var v := u.(theirs := Theirs(sections), part := InTheirs);
        ScanThen(s, ([head] + ours) + RenderSections(sections), v, [tail]);
        ScanLine(v, tail);
        assert [] + ours == ours;
    }
  }

  lemma {:induction false} ScanDoc(doc: seq<Segment>)
    requires GoodDoc(doc)
    ensures Scan(START, Render(doc)).Some?
    ensures var t := Scan(START, Render(doc)).value; t.part.Outside? && t.out == Resolved(doc)
    decreases |doc|
  {
    hide Scan, GoodSegment, RenderSegment, ResolvedSegment;
    if doc == [] {
      ScanNothing(START, []);
    } else {
      var g := doc[|doc| - 1];
      var before := doc[..|doc| - 1];
      ScanDoc(before);
      var t := Scan(START, Render(before)).value;
      ScanThen(START, Render(before), t, RenderSegment(g));
      assert GoodSegment(g);
      ScanSegment(t, g);
    }
  }

  /** A document resolves to its plain lines and, per block, ours and then the lines of
      theirs that are blank or absent from ours. */
  lemma DocumentResolves(doc: seq<Segment>)
    requires GoodDoc(doc)
    ensures Union(Render(doc)) == Some(Resolved(doc))
  {
    hide Scan, GoodDoc, Render, Resolved;
    ScanDoc(doc);
  }

  // ---- every text that resolves is a document ---------------------------------------------------

  /** The segments read so far and the block that is open. */
  datatype Draft = Draft(doc: seq<Segment>, head: string, ours: seq<string>, sections: seq<Section>)

  predicate Explains(lines: seq<string>, s: State, d: Draft) {
    && GoodDoc(d.doc) && s.out == Resolved(d.doc)
    && if s.part.Outside? then lines == Render(d.doc) else OpenBlock(lines, s, d)
  }

  predicate OpenBlock(lines: seq<string>, s: State, d: Draft) {
    && Opens(d.head) && (forall l <- d.ours :: InBlock(l)) && GoodSections(d.sections)
    && lines == Render(d.doc) + (([d.head] + d.ours) + RenderSections(d.sections))
    && s.ours == d.ours && s.theirs == Theirs(d.sections) && s.part == PartAfter(d.sections)
  }

  lemma DocOneMore(doc: seq<Segment>, g: Segment)
    ensures Render(doc + [g]) == Render(doc) + RenderSegment(g)
    ensures Resolved(doc + [g]) == Resolved(doc) + ResolvedSegment(g)
    ensures GoodDoc(doc) && GoodSegment(g) ==> GoodDoc(doc + [g])
  {
    hide RenderSegment, ResolvedSegment, GoodSegment;
    assert (doc + [g])[..|doc + [g]| - 1] == doc;
  }

  lemma SectionsOneMore(sections: seq<Section>, last: Section)
    ensures RenderSections(sections + [last]) == RenderSections(sections) + ([last.marker] + last.lines)
    ensures Theirs(sections + [last]) == Theirs(sections) + if last.base then [] else last.lines
    ensures GoodSections(sections) && GoodSection(last) ==> GoodSections(sections + [last])
    ensures PartAfter(sections + [last]) == if last.base then InBase else InTheirs
  {
    hide GoodSection;
    assert (sections + [last])[..|sections + [last]| - 1] == sections;
  }

  lemma ReadPlain(lines: seq<string>, s: State, d: Draft, line: string) returns (e: Draft)
    requires Explains(lines, s, d) && s.part.Outside? && !Opens(line)
    ensures Explains(lines + [line], s.(out := s.out + [line]), e)
  {
    hide GoodDoc, Render, Resolved;
    e := d.(doc := d.doc + [Plain(line)]);
    DocOneMore(d.doc, Plain(line));
  }

  lemma ReadHead(lines: seq<string>, s: State, d: Draft, line: string) returns (e: Draft)
    requires Explains(lines, s, d) && s.part.Outside? && Opens(line)
    ensures Explains(lines + [line], State(s.out, [], [], InOurs), e)
  {
    hide GoodDoc, Render, Resolved, Opens;
    e := Draft(d.doc, line, [], []);
    assert ([line] + []) + [] == [line];
  }

  /** A marker inside a block starts a section. */
  lemma ReadMarker(lines: seq<string>, s: State, d: Draft, line: string, base: bool) returns (e: Draft)
    requires Explains(lines, s, d) && !s.part.Outside? && GoodSection(Section(line, base, []))
    ensures Explains(lines + [line], s.(part := if base then InBase else InTheirs), e)
  {
    hide GoodDoc, Render, Resolved, Opens, InBlock, GoodSections, GoodSection, RenderSections, Theirs, PartAfter;
    e := d.(sections := d.sections + [Section(line, base, [])]);
    SectionsOneMore(d.sections, Section(line, base, []));
    assert Theirs(d.sections) + [] == Theirs(d.sections);
    assert [line] + [] == [line];
    assert lines + [line] == Render(d.doc) + (([d.head] + d.ours) + (RenderSections(d.sections) + [line]));
  }

  lemma ReadOurs(lines: seq<string>, s: State, d: Draft, line: string) returns (e: Draft)
    requires Explains(lines, s, d) && s.part.InOurs? && InBlock(line)
    ensures Explains(lines + [line], s.(ours := s.ours + [line]), e)
  {
    hide GoodDoc, Render, Resolved, Opens, InBlock;
    e := d.(ours := d.ours + [line]);
    assert d.sections == [];
    assert [d.head] + d.ours + [line] == [d.head] + (d.ours + [line]);
    assert lines + [line] == Render(d.doc) + (([d.head] + (d.ours + [line])) + []);
  }

  /** A content line of the last section. */
  lemma ReadSection(lines: seq<string>, s: State, d: Draft, line: string) returns (e: Draft)
    requires Explains(lines, s, d) && (s.part.InBase? || s.part.InTheirs?)
    requires InBlock(line) && (s.part.InBase? || !Closes(line))
    ensures Explains(lines + [line], if s.part.InBase? then s else s.(theirs := s.theirs + [line]), e)
  {
    hide GoodDoc, Render, Resolved, Opens, InBlock, StartsBase, Separates, Closes, RenderSections, Theirs;
    Snoc(d.sections);
    var before := d.sections[..|d.sections| - 1];
    var last := d.sections[|d.sections| - 1];
    var longer := last.(lines := last.lines + [line]);
    assert GoodSection(last);
    assert GoodSection(longer);
    e := d.(sections := before + [longer]);
    SectionsOneMore(before, last);
    SectionsOneMore(before, longer);
    assert Theirs(before) + (last.lines + [line]) == Theirs(before) + last.lines + [line];
    assert RenderSections(e.sections) == RenderSections(d.sections) + [line];
    assert lines + [line] == Render(d.doc) + (([d.head] + d.ours) + (RenderSections(d.sections) + [line]));
  }

  lemma ReadTail(lines: seq<string>, s: State, d: Draft, line: string) returns (e: Draft)
    requires Explains(lines, s, d) && s.part.InTheirs? && InBlock(line) && Closes(line)
    ensures Explains(lines + [line], s.(out := s.out + Merged(s.ours, s.theirs), part := Outside), e)
  {
    hide GoodDoc, Render, Resolved, Opens, InBlock, Closes, GoodSections, RenderSections, Theirs, Merged;
    var g := Conflict(d.head, d.ours, d.sections, line);
    e := d.(doc := d.doc + [g]);
    DocOneMore(d.doc, g);
    assert lines + [line] == Render(d.doc) + (([d.head] + d.ours) + RenderSections(d.sections) + [line]);
  }

  lemma ReadLine(lines: seq<string>, s: State, d: Draft, line: string) returns (e: Draft)
    requires Explains(lines, s, d) && Step(s, line).Some?
    ensures Explains(lines + [line], Step(s, line).value, e)
  {
    hide Opens, StartsBase, Separates, Closes, Explains, Merged;
    if Opens(line) {
      e := ReadHead(lines, s, d, line);
    } else if !s.part.Outside? && StartsBase(line) {
      e := ReadMarker(lines, s, d, line, true);
    } else if !s.part.Outside? && Separates(line) {
      e := ReadMarker(lines, s, d, line, false);
    } else if s.part.InTheirs? && Closes(line) {
      e := ReadTail(lines, s, d, line);
    } else if s.part.InOurs? {
      e := ReadOurs(lines, s, d, line);
    } else if s.part.Outside? {
      e := ReadPlain(lines, s, d, line);
    } else {
      e := ReadSection(lines, s, d, line);
    }
  }

  lemma {:induction false} Read(lines: seq<string>) returns (d: Draft)
    requires Scan(START, lines).Some?
    ensures Explains(lines, Scan(START, lines).value, d)
    decreases |lines|
  {
    hide Step, Opens;
    if lines == [] {
      d := Draft([], "", [], []);
    } else {
      var front := lines[..|lines| - 1];
      var before := Read(front);
      Snoc(lines);
      hide Explains;
      d := ReadLine(front, Scan(START, front).value, before, lines[|lines| - 1]);
    }
  }

  ghost predicate IsTextOf(lines: seq<string>, out: seq<string>, doc: seq<Segment>) {
    GoodDoc(doc) && Render(doc) == lines && Resolved(doc) == out
  }

  /** A text resolves exactly when it is the text of a document, and then to what keeping
      both sides of every block makes of that document. */
  lemma ResolvesDocuments(lines: seq<string>, out: seq<string>)
    ensures Union(lines) == Some(out) <==> exists doc :: IsTextOf(lines, out, doc)
  {
    hide Scan, GoodDoc, Render, Resolved, OpenBlock;
    if Union(lines) == Some(out) {
      var d := Read(lines);
      assert IsTextOf(lines, out, d.doc);
    }
    forall doc | IsTextOf(lines, out, doc)
      ensures Union(lines) == Some(out)
    {
      DocumentResolves(doc);
    }
  }

  // ---- the marks and the merge, by their characters ---------------------------------------

  /** Seven times the character, at the start. */
  predicate Seven(line: string, c: char) { |line| >= 7 && forall k :: 0 <= k < 7 ==> line[k] == c }

  /** Newlines only, from there on. */
  predicate EndsAt(line: string, i: nat) { forall k :: i <= k < |line| ==> line[k] == '\n' }

  lemma {:induction false} BareIs(line: string)
    ensures Bare(line) <= line && EndsAt(line, |Bare(line)|)
    ensures Bare(line) != "" ==> Bare(line)[|Bare(line)| - 1] != '\n'
    decreases |line|
  {
    if line != "" && line[|line| - 1] == '\n' {
      BareIs(line[..|line| - 1]);
      assert forall k :: 0 <= k < |line| - 1 ==> line[k] == line[..|line| - 1][k];
    }
  }

  lemma BareSeven(line: string, mark: string)
    requires |mark| == 7 && mark[6] != '\n' && forall k :: 0 <= k < 7 ==> mark[k] == mark[6]
    ensures Bare(line) == mark <==> Seven(line, mark[6]) && EndsAt(line, 7)
  {
    BareIs(line);
    if Seven(line, mark[6]) && EndsAt(line, 7) {
      assert line[6] == mark[6];
      assert |Bare(line)| == 7;
    }
  }

  /** The marks of a conflict: what a line must begin with, and what must follow. */
  lemma MarksAre(line: string)
    ensures Opens(line) <==> Seven(line, '<') && ((|line| > 7 && line[7] == ' ') || EndsAt(line, 7))
    ensures StartsBase(line) <==> Seven(line, '|')
    ensures Separates(line) <==> Seven(line, '=') && EndsAt(line, 7)
    ensures Closes(line) <==> Seven(line, '>')
  {
    BareSeven(line, "<<<<<<<");
    BareSeven(line, "=======");
  }

  lemma {:induction false} LackingAppend(ours: seq<string>, a: seq<string>, b: seq<string>)
    ensures Lacking(ours, a + b) == Lacking(ours, a) + Lacking(ours, b)
    decreases |b|
  {
    if b == [] {
      assert a + b == a;
    } else {
      var last := |b| - 1;
      LackingAppend(ours, a, b[..last]);
      assert (a + b)[..|a| + last] == a + b[..last];
    }
  }

  lemma LackingOne(ours: seq<string>, line: string)
    ensures Lacking(ours, [line]) == if line in ours && !Blank(line) then [] else [line]
  {
    assert [line][..0] == [];
  }

  /** The merge takes all of ours, and of theirs, in order, each line ours lacks or that is blank. */
  lemma MergedIs(ours: seq<string>, a: seq<string>, b: seq<string>, line: string)
    ensures Merged(ours, []) == ours
    ensures Merged(ours, a + b) == Merged(ours, a) + Merged(ours, b)[|ours|..]
    ensures Merged(ours, [line]) ==
            if line in ours && exists k :: 0 <= k < |line| && !Stripped(line[k]) then ours else ours + [line]
  {
    LackingAppend(ours, a, b);
    LackingOne(ours, line);
    assert Blank(line) <==> forall k :: 0 <= k < |line| ==> Stripped(line[k]);
  }

  /** The white space that is stripped, and the characters that end a line, by their codes. */
  lemma CodesAre(c: char)
    ensures Stripped(c) <==> var i := c as int;
      9 <= i <= 13 || 28 <= i <= 32 || 0x2000 <= i <= 0x200a
      || i in {0x85, 0xa0, 0x1680, 0x2028, 0x2029, 0x202f, 0x205f, 0x3000}
    ensures Break(c) <==> c as int in {10, 11, 12, 13, 28, 29, 30, 0x85, 0x2028, 0x2029}
  {
  }

  // ---- when there is no answer ---------------------------------------------------------------------

  ghost predicate NoBase(lines: seq<string>, m: int, c: int)
    requires 0 <= m < c <= |lines|
  {
    forall k :: m < k < c ==> !StartsBase(lines[k])
  }

  /** Between the positions the last base or separator line, if any, is a separator. */
  ghost predicate TheirsAt(lines: seq<string>, o: int, c: int) {
    exists m :: 0 <= o < m < c <= |lines| && Separates(lines[m]) && NoBase(lines, m, c)
  }

  /** The block opened at o has its end mark before i. */
  ghost predicate ClosedBefore(lines: seq<string>, o: int, i: int) {
    exists c :: 0 <= o < c < i <= |lines| && Closes(lines[c]) && TheirsAt(lines, o, c)
  }

  ghost predicate Nested(lines: seq<string>) {
    exists o, p :: 0 <= o < p < |lines| && Opens(lines[o]) && Opens(lines[p]) && !ClosedBefore(lines, o, p)
  }

  ghost predicate Unclosed(lines: seq<string>) {
    exists o :: 0 <= o < |lines| && Opens(lines[o]) && !ClosedBefore(lines, o, |lines|)
  }

  lemma {:induction false} BareIsPrefix(line: string)
    ensures Bare(line) <= line
    decreases |line|
  {
    if line != "" && line[|line| - 1] == '\n' {
      BareIsPrefix(line[..|line| - 1]);
    }
  }

  lemma FirstChars(line: string)
    ensures StartsBase(line) ==> line != "" && line[0] == '|'
    ensures Closes(line) ==> line != "" && line[0] == '>'
    ensures Separates(line) ==> line != "" && line[0] == '='
    ensures Opens(line) ==> line != "" && line[0] == '<'
  {
    hide Bare;
    BareIsPrefix(line);
    if Separates(line) {
      assert "======="[0] == '=';
    }
    if Opens(line) {
      assert "<<<<<<< "[0] == '<' && "<<<<<<<"[0] == '<';
    }
    if StartsBase(line) {
      assert "|||||||"[0] == '|';
    }
    if Closes(line) {
      assert ">>>>>>>"[0] == '>';
    }
  }

  /** A line is a marker of one kind at most. */
  lemma OneMarker(line: string)
    ensures StartsBase(line) ==> !Separates(line) && !Closes(line)
    ensures Separates(line) ==> !Closes(line)
    ensures Opens(line) ==> !StartsBase(line) && !Separates(line) && !Closes(line)
  {
    hide Opens, StartsBase, Separates, Closes;
    FirstChars(line);
  }

  /** The block opened at o is the one being read at i. */
  ghost predicate Reading(lines: seq<string>, o: int, i: int, part: Part) {
    && 0 <= o < i <= |lines| && Opens(lines[o])
    && !ClosedBefore(lines, o, i)
    && (part.InTheirs? <==> TheirsAt(lines, o, i))
  }

  ghost predicate AllClosed(lines: seq<string>, i: int) {
    forall o :: 0 <= o < i <= |lines| && Opens(lines[o]) ==> ClosedBefore(lines, o, i)
  }

  ghost predicate NoneNested(lines: seq<string>, i: int) {
    forall o, p :: 0 <= o < p < i <= |lines| && Opens(lines[o]) && Opens(lines[p]) ==> ClosedBefore(lines, o, p)
  }

  ghost predicate Tracks(lines: seq<string>, i: int, part: Part) {
    && NoneNested(lines, i)
    && if part.Outside? then AllClosed(lines, i) else exists o :: Reading(lines, o, i, part)
  }

  lemma StepOutside(lines: seq<string>, i: int, part: Part)
    requires 0 <= i < |lines| && AllClosed(lines, i) && part == (if Opens(lines[i]) then InOurs else Outside)
    ensures if part.Outside? then AllClosed(lines, i + 1) else Reading(lines, i, i + 1, part)
  {
    hide Opens, Closes, Separates, StartsBase;
    if Opens(lines[i]) {
      assert !TheirsAt(lines, i, i + 1);
    } else {
      forall o | 0 <= o < i + 1 && Opens(lines[o])
        ensures ClosedBefore(lines, o, i + 1)
      {
      }
    }
  }

  lemma StepInside(lines: seq<string>, o: int, i: int, part: Part, next: Part)
    requires Reading(lines, o, i, part) && i < |lines| && !part.Outside? && !Opens(lines[i])
    requires next == if StartsBase(lines[i]) then InBase
                     else if Separates(lines[i]) then InTheirs
                     else if part.InTheirs? && Closes(lines[i]) then Outside else part
    ensures if next.Outside? then ClosedBefore(lines, o, i + 1) else Reading(lines, o, i + 1, next)
  {
    OneMarker(lines[i]);
    hide Opens, Closes, Separates, StartsBase, TheirsAt;
    assert ClosedBefore(lines, o, i + 1) <==> Closes(lines[i]) && TheirsAt(lines, o, i);
  }

  lemma StepPart(s: State, line: string)
    requires Step(s, line).Some?
    ensures Step(s, line).value.part
         == if s.part.Outside? then (if Opens(line) then InOurs else Outside)
            else if StartsBase(line) then InBase
            else if Separates(line) then InTheirs
            else if s.part.InTheirs? && Closes(line) then Outside else s.part
    ensures !s.part.Outside? ==> !Opens(line)
  {
    hide Opens, Closes, Separates, StartsBase;
  }

  lemma TracksStep(lines: seq<string>, i: int, s: State)
    requires 0 <= i < |lines| && Tracks(lines, i, s.part) && Step(s, lines[i]).Some?
    ensures Tracks(lines, i + 1, Step(s, lines[i]).value.part)
  {
    hide Step, Opens, Closes, Separates, StartsBase, Tracks;
    StepPart(s, lines[i]);
    PartStep(lines, i, s.part, Step(s, lines[i]).value.part);
  }

  lemma PartStep(lines: seq<string>, i: int, part: Part, next: Part)
    requires 0 <= i < |lines| && Tracks(lines, i, part)
    requires next == if part.Outside? then (if Opens(lines[i]) then InOurs else Outside)
                     else if StartsBase(lines[i]) then InBase
                     else if Separates(lines[i]) then InTheirs
                     else if part.InTheirs? && Closes(lines[i]) then Outside else part
    requires !part.Outside? ==> !Opens(lines[i])
    ensures Tracks(lines, i + 1, next)
  {
    hide Reading, AllClosed, NoneNested, ClosedBefore, Opens, Closes, Separates, StartsBase;
    NestsNowhere(lines, i);
    if part.Outside? {
      StepOutside(lines, i, next);
    } else {
      var o :| Reading(lines, o, i, part);
      StepInside(lines, o, i, part, next);
      if next.Outside? {
        LastCloses(lines, o, i, part);
      } else {
        assert Reading(lines, o, i + 1, next);
      }
    }
  }

  /** No block is nested up to a line that opens none, or before which all are closed. */
  lemma NestsNowhere(lines: seq<string>, i: int)
    requires 0 <= i < |lines| && NoneNested(lines, i) && (AllClosed(lines, i) || !Opens(lines[i]))
    ensures NoneNested(lines, i + 1)
  {
    hide Opens, ClosedBefore;
  }

  lemma LastCloses(lines: seq<string>, o: int, i: int, part: Part)
    requires NoneNested(lines, i) && i < |lines| && Reading(lines, o, i, part) && !Opens(lines[i])
    requires ClosedBefore(lines, o, i + 1)
    ensures AllClosed(lines, i + 1)
  {
    hide Opens, Closes, TheirsAt;
    forall p | 0 <= p < i + 1 && Opens(lines[p])
      ensures ClosedBefore(lines, p, i + 1)
    {
      if p < o {
        assert ClosedBefore(lines, p, o);
      }
    }
  }

  lemma StepFails(lines: seq<string>, i: int, s: State)
    requires 0 <= i < |lines| && Tracks(lines, i, s.part) && Step(s, lines[i]).None?
    ensures Nested(lines)
  {
    hide ClosedBefore, Opens, Closes, Separates, StartsBase, TheirsAt;
    var o :| Reading(lines, o, i, s.part);
  }

  lemma {:induction false} TracksAll(lines: seq<string>, i: nat)
    requires i <= |lines|
    ensures match Scan(START, lines[..i]) case None => Nested(lines) case Some(s) => Tracks(lines, i, s.part)
    decreases i
  {
    hide Scan, Step, Nested, Opens, ClosedBefore;
    if i == 0 {
      ScanNothing(START, lines);
    } else {
      TracksAll(lines, i - 1);
      ScanOne(START, lines, i - 1);
      var before := Scan(START, lines[..i - 1]);
      hide Tracks;
      if before.Some? {
        if Step(before.value, lines[i - 1]).Some? {
          TracksStep(lines, i - 1, before.value);
        } else {
          StepFails(lines, i - 1, before.value);
        }
      }
    }
  }

  /** There is no answer exactly when a block opens inside another or is never closed. */
  lemma NoAnswer(lines: seq<string>)
    ensures Union(lines).None? <==> Nested(lines) || Unclosed(lines)
  {
    hide Scan, Opens, ClosedBefore, TheirsAt;
    TracksAll(lines, |lines|);
    assert lines[..|lines|] == lines;
    if Scan(START, lines).Some? {
      var s := Scan(START, lines).value;
      assert NoneNested(lines, |lines|);
      if !s.part.Outside? {
        var o :| Reading(lines, o, |lines|, s.part);
      }
    }
  }

  // ---- resolving again -----------------------------------------------------------------------------

  predicate NoHead(lines: seq<string>) { forall l <- lines :: !Opens(l) }

  lemma {:induction false} LackingIsPart(ours: seq<string>, theirs: seq<string>)
    ensures forall l <- Lacking(ours, theirs) :: l in theirs
    decreases |theirs|
  {
    if theirs == [] {
    } else {
      LackingIsPart(ours, theirs[..|theirs| - 1]);
    }
  }

  lemma StepNoHead(s: State, line: string)
    requires NoHead(s.out) && NoHead(s.ours) && NoHead(s.theirs) && Step(s, line).Some?
    ensures var t := Step(s, line).value; NoHead(t.out) && NoHead(t.ours) && NoHead(t.theirs)
  {
    hide Opens, Closes, Separates, StartsBase, Lacking;
    LackingIsPart(s.ours, s.theirs);
  }

  lemma {:induction false} ScanNoHead(lines: seq<string>)
    requires Scan(START, lines).Some?
    ensures var s := Scan(START, lines).value; NoHead(s.out) && NoHead(s.ours) && NoHead(s.theirs)
    decreases |lines|
  {
    hide Step, NoHead;
    if lines == [] {
      NoHeadHere();
    } else {
      ScanNoHead(lines[..|lines| - 1]);
      StepNoHead(Scan(START, lines[..|lines| - 1]).value, lines[|lines| - 1]);
    }
  }

  lemma NoHeadHere()
    ensures NoHead([])
  {
  }

  lemma {:induction false} ScanPlain(lines: seq<string>)
    requires NoHead(lines)
    ensures Scan(START, lines) == Some(START.(out := lines))
    decreases |lines|
  {
    hide Opens, Closes, Separates, StartsBase;
    if lines == [] {
    } else {
      ScanPlain(lines[..|lines| - 1]);
      Snoc(lines);
    }
  }

  /** What was resolved has no block left: resolving it again changes nothing. */
  lemma ResolvedStays(lines: seq<string>)
    requires Union(lines).Some?
    ensures Union(Union(lines).value) == Union(lines)
  {
    hide Scan, NoHead;
    ScanNoHead(lines);
    ScanPlain(Union(lines).value);
  }

  // ---- whole texts -------------------------------------------------------------------------------------

  /** The characters str.splitlines ends a line at. */
  predicate Break(c: char) {
    '\U{a}' <= c <= '\U{d}' || '\U{1c}' <= c <= '\U{1e}' || c == '\U{85}' || c == '\U{2028}' || c == '\U{2029}'
  }

  predicate Unbroken(text: string) { forall c <- text :: !Break(c) }

  predicate Ended(line: string) { line != "" && Break(line[|line| - 1]) }

  predicate Returns(line: string) { line != "" && line[|line| - 1] == '\r' }

  /** A line with its break, if it has one, at its end only; a return and a newline are one break. */
  predicate IsLine(line: string) {
    line != "" && (Unbroken(line[..|line| - 1])
        || (|line| > 1 && line[|line| - 2..] == "\r\n" && Unbroken(line[..|line| - 2])))
  }

  function FirstLine(text: string): (line: string)
    requires text != ""
    ensures line != "" && line <= text
    decreases |text|
  {
    if |text| > 1 && text[0] == '\r' && text[1] == '\n' then text[..2]
    else if Break(text[0]) || |text| == 1 then text[..1]
    else [text[0]] + FirstLine(text[1..])
  }

  lemma {:induction false} FirstIsLine(text: string)
    requires text != ""
    ensures var line := FirstLine(text); IsLine(line) && (line == text || Ended(line))
    decreases |text|
  {
    hide IsLine, Ended, Break;
    if |text| > 1 && text[0] == '\r' && text[1] == '\n' {
      assert text[..2] == "\r\n";
      ReturnIsLine();
    } else if Break(text[0]) || |text| == 1 {
      assert text[..1] == [text[0]];
      CharIsLine(text[0]);
    } else {
      FirstIsLine(text[1..]);
      LongerLine(text[0], FirstLine(text[1..]));
    }
  }

  lemma ReturnIsLine()
    ensures IsLine("\r\n") && Ended("\r\n")
  {
    var line := "\r\n";
    assert line[|line| - 2..] == "\r\n" && line[..|line| - 2] == "";
  }

  lemma CharIsLine(c: char)
    ensures IsLine([c]) && (Ended([c]) <==> Break(c))
  {
    hide Break;
    assert [c][..0] == "";
  }

  lemma LongerLine(c: char, rest: string)
    requires !Break(c) && IsLine(rest)
    ensures IsLine([c] + rest) && (Ended(rest) ==> Ended([c] + rest))
  {
    hide Break;
    var line := [c] + rest;
    assert line[..|line| - 1] == [c] + rest[..|rest| - 1];
    if |rest| > 1 {
      assert line[|line| - 2..] == rest[|rest| - 2..] && line[..|line| - 2] == [c] + rest[..|rest| - 2];
    }
  }

  /** The lines of a text with their breaks. */
  function Lines(text: string): seq<string>
    decreases |text|
  {
    if text == "" then [] else [FirstLine(text)] + Lines(text[|FirstLine(text)|..])
  }

  function Join(lines: seq<string>): string
    decreases |lines|
  {
    if lines == [] then "" else lines[0] + Join(lines[1..])
  }

  /** Every line is one, and every line but the last ends in a break. */
  predicate Cut(lines: seq<string>) {
    && (forall l <- lines :: IsLine(l))
    && forall i :: 0 <= i < |lines| - 1 ==> Ended(lines[i])
  }

  lemma {:induction false} LinesAreCut(text: string)
    ensures Cut(Lines(text)) && Join(Lines(text)) == text
    decreases |text|
  {
    hide FirstLine, IsLine;
    if text == "" {
    } else {
      FirstIsLine(text);
      var rest := text[|FirstLine(text)|..];
      LinesAreCut(rest);
      assert Lines(text)[1..] == Lines(rest);
      assert text == FirstLine(text) + rest;
    }
  }

  /** A line is found again before a rest that does not begin in the middle of its break. */
  lemma {:induction false} FirstLineIs(line: string, rest: string)
    requires IsLine(line) && (rest == "" || Ended(line))
    requires Returns(line) && rest != "" ==> rest[0] != '\n'
    ensures FirstLine(line + rest) == line
    decreases |line|
  {
    var text := line + rest;
    if |line| == 1 {
      assert text[..1] == line;
    } else if line == "\r\n" {
      assert text[..2] == line;
    } else {
      LineTail(line);
      assert text[1..] == line[1..] + rest;
      FirstLineIs(line[1..], rest);
      assert [line[0]] + line[1..] == line;
    }
  }

  lemma LineTail(line: string)
    requires IsLine(line) && |line| > 1 && line != "\r\n"
    ensures !Break(line[0]) && IsLine(line[1..]) && line[1..][|line| - 2] == line[|line| - 1]
  {
    var tail := line[1..];
    assert line[..|line| - 1][1..] == tail[..|tail| - 1];
    if Unbroken(line[..|line| - 1]) {
      assert line[0] == line[..|line| - 1][0];
    } else {
      assert |line| > 2;
      assert line[0] == line[..|line| - 2][0];
      assert line[..|line| - 2][1..] == tail[..|tail| - 2];
      assert tail[|tail| - 2..] == line[|line| - 2..];
    }
  }

  /** A return at the end of a line and the newline that is the next line make one break. */
  lemma ReturnAndNewline(line: string, next: string)
    requires IsLine(line) && Returns(line) && IsLine(next) && next[0] == '\n'
    ensures next == "\n" && IsLine(line + next) && Ended(line + next) && !Returns(line + next)
  {
    if |next| > 1 && next != "\r\n" {
      LineTail(next);
    }
    var both := line + next;
    assert both[..|both| - 2] == line[..|line| - 1];
    assert both[|both| - 2..] == "\r\n";
    assert line[|line| - 1] == '\r';
    if |line| > 1 {
      assert line[|line| - 2..] != "\r\n" by {
        assert line[|line| - 2..][1] == '\r';
      }
    }
  }

  /** Joined lines are cut again into these lines, but for a return that meets a newline. So
      no opening marker comes up that was no line before. */
  lemma {:induction false} JoinedHasNoHead(lines: seq<string>)
    requires Cut(lines) && NoHead(lines)
    ensures NoHead(Lines(Join(lines)))
    decreases |lines|
  {
    hide FirstLine, IsLine, Opens, Lines, Break;
    if lines == [] {
      NoLines();
    } else {
      var line, rest := lines[0], lines[1..];
      TailIsCut(lines);
      LinesAre(lines);
      if rest != [] && Returns(line) && rest[0][0] == '\n' {
        ReturnAndNewline(line, rest[0]);
        TailIsCut(rest);
        JoinedHasNoHead(rest[1..]);
        assert Join(lines) == (line + rest[0]) + Join(rest[1..]);
        FirstLineIs(line + rest[0], Join(rest[1..]));
        LinesOne(line + rest[0], Join(rest[1..]));
        StillNoHead(line);
      } else {
        JoinedHasNoHead(rest);
        JoinStarts(rest);
        FirstLineIs(line, Join(rest));
        LinesOne(line, Join(rest));
      }
    }
  }

  lemma NoLines()
    ensures Lines("") == [] && Join([]) == ""
  {
  }

  lemma LinesAre(lines: seq<string>)
    requires Cut(lines)
    ensures forall i :: 0 <= i < |lines| ==> lines[i] != ""
  {
    assert forall i :: 0 <= i < |lines| ==> IsLine(lines[i]);
  }

  lemma TailIsCut(lines: seq<string>)
    requires Cut(lines) && NoHead(lines) && lines != []
    ensures Cut(lines[1..]) && NoHead(lines[1..]) && IsLine(lines[0]) && !Opens(lines[0])
    ensures lines[1..] == [] || Ended(lines[0])
  {
    hide IsLine, Ended, Opens;
    var rest := lines[1..];
    forall i | 0 <= i < |rest| - 1
      ensures Ended(rest[i])
    {
      assert rest[i] == lines[i + 1];
    }
  }

  lemma JoinStarts(lines: seq<string>)
    requires forall i :: 0 <= i < |lines| ==> lines[i] != ""
    ensures lines == [] ==> Join(lines) == ""
    ensures lines != [] ==> Join(lines) != "" && Join(lines)[0] == lines[0][0]
  {
  }

  lemma LinesOne(line: string, rest: string)
    requires line != "" && FirstLine(line + rest) == line
    ensures Lines(line + rest) == [line] + Lines(rest)
  {
    hide FirstLine;
    assert (line + rest)[|line|..] == rest;
  }

  /** No return that ends a line meets a newline that begins the next. */
  predicate Apart(lines: seq<string>) {
    forall i :: 0 <= i < |lines| - 1 && Returns(lines[i]) ==> lines[i + 1] == "" || lines[i + 1][0] != '\n'
  }

  lemma {:induction false} FirstLineEnds(text: string)
    requires text != "" && Returns(FirstLine(text))
    ensures var e := |FirstLine(text)|; e < |text| ==> text[e] != '\n'
    decreases |text|
  {
    if !((|text| > 1 && text[0] == '\r' && text[1] == '\n') || Break(text[0]) || |text| == 1) {
      FirstLineEnds(text[1..]);
    }
  }

  lemma {:induction false} LinesApart(text: string)
    ensures Apart(Lines(text))
    decreases |text|
  {
    hide FirstLine, Returns;
    if text == "" {
    } else {
      var line, rest := FirstLine(text), text[|FirstLine(text)|..];
      LinesApart(rest);
      if Returns(line) {
        FirstLineEnds(text);
      }
      assert forall i :: 0 < i < |Lines(text)| ==> Lines(text)[i] == Lines(rest)[i - 1];
      if rest != "" {
        assert Lines(rest)[0] == FirstLine(rest);
      }
    }
  }

  lemma {:induction false} CutAgain(lines: seq<string>)
    requires Cut(lines) && Apart(lines)
    ensures Lines(Join(lines)) == lines
    decreases |lines|
  {
    hide FirstLine, IsLine, Lines, Ended, Returns;
    if lines == [] {
      NoLines();
    } else {
      var line, rest := lines[0], lines[1..];
      assert forall i :: 0 <= i < |rest| ==> rest[i] == lines[i + 1];
      CutAgain(rest);
      LinesAre(lines);
      JoinStarts(rest);
      FirstLineIs(line, Join(rest));
      LinesOne(line, Join(rest));
    }
  }

  /** The lines of a text are the only way to cut it at its breaks. */
  lemma LinesExactly(text: string, lines: seq<string>)
    ensures Lines(text) == lines <==> Cut(lines) && Apart(lines) && Join(lines) == text
  {
    hide Lines, Cut, Apart, Join;
    LinesAreCut(text);
    LinesApart(text);
    if Cut(lines) && Apart(lines) && Join(lines) == text {
      CutAgain(lines);
    }
  }

  lemma StillNoHead(line: string)
    requires Returns(line) && !Opens(line)
    ensures !Opens(line + "\n")
  {
    var both := line + "\n";
    assert both[..|both| - 1] == line;
    assert both[..|both| - 1] == line;
  }

  predicate From(part: seq<string>, lines: seq<string>) { forall l <- part :: l in lines }

  lemma StepFrom(s: State, line: string, lines: seq<string>)
    requires From(s.out, lines) && From(s.ours, lines) && From(s.theirs, lines) && line in lines && Step(s, line).Some?
    ensures var t := Step(s, line).value; From(t.out, lines) && From(t.ours, lines) && From(t.theirs, lines)
  {
    hide Opens, Closes, Separates, StartsBase, Lacking;
    LackingIsPart(s.ours, s.theirs);
  }

  lemma {:induction false} ScanFrom(part: seq<string>, lines: seq<string>)
    requires Scan(START, part).Some? && From(part, lines)
    ensures var s := Scan(START, part).value; From(s.out, lines) && From(s.ours, lines) && From(s.theirs, lines)
    decreases |part|
  {
    hide Step;
    if part == [] {
    } else {
      ScanFrom(part[..|part| - 1], lines);
      StepFrom(Scan(START, part[..|part| - 1]).value, part[|part| - 1], lines);
    }
  }

  /** The resolved lines are cut as a text again. */
  lemma ResolvedIsCut(lines: seq<string>)
    requires Cut(lines) && Union(lines).Some?
    ensures Cut(Union(lines).value)
  {
    hide Opens, Closes, Separates, StartsBase, Lacking, IsLine, Ended;
    var out := Union(lines).value;
    ScanFrom(lines, lines);
    if lines != [] {
      var front := lines[..|lines| - 1];
      ScanFrom(front, front);
      var s := Scan(START, front).value;
      LackingIsPart(s.ours, s.theirs);
      assert forall l <- front :: Ended(l);
      assert out == s.out + [lines[|lines| - 1]] || out == s.out + Merged(s.ours, s.theirs);
    }
  }

  function ResolveText(text: string): Option<string> {
    match Union(Lines(text))
    case None => None
    case Some(out) => Some(Join(out))
  }

  method ResolveUnion(text: string) returns (merged: Option<string>)
    ensures merged == ResolveText(text)
  {
    hide Union;
    var out := ResolveLines(Lines(text));
    merged := if out.None? then None else Some(Join(out.value));
  }

  /** For every text: once resolved, resolving the joined text again changes nothing. */
  lemma ResolveTwice(text: string)
    requires ResolveText(text).Some?
    ensures ResolveText(ResolveText(text).value) == ResolveText(text)
  {
    hide Union, Lines, Join, Cut, NoHead;
    var out := Union(Lines(text)).value;
    LinesAreCut(text);
    ResolvedIsCut(Lines(text));
    ResolvedHasNoHead(Lines(text));
    JoinedHasNoHead(out);
    PlainTextStays(Join(out));
  }

  lemma ResolvedHasNoHead(lines: seq<string>)
    requires Union(lines).Some?
    ensures NoHead(Union(lines).value)
  {
    hide Scan, NoHead;
    ScanNoHead(lines);
  }

  /** A text without an opening marker is its own resolution. */
  lemma PlainTextStays(text: string)
    requires NoHead(Lines(text))
    ensures ResolveText(text) == Some(text)
  {
    hide Scan, Lines, Join, NoHead;
    ScanPlain(Lines(text));
    LinesAreCut(text);
  }
}
