/** Splitting a document into sections at its headings, and long sections into parts of whole lines.

    A line carries what the regular expressions say about it. */
module CodeChunker {
  import opened Wrappers

  datatype Heading = Heading(level: nat, title: string)

  datatype Line = Line(text: string, stripped: string, fence: bool, heading: Option<Heading>, underline: bool)

  datatype Section = Section(lines: seq<Line>, path: seq<string>)

  /** Whether line `i` lies inside a fence; a fence line belongs to what it opens, not to what it closes. */
  function InFence(lines: seq<Line>, i: nat): bool
    requires i < |lines|
  {
    var before := i > 0 && InFence(lines, i - 1);
    if lines[i].fence then !before else before
  }

  /** A heading, or a line over a heading underline, outside every fence. */
  predicate StartsSection(lines: seq<Line>, i: nat)
    requires i < |lines|
  {
    !InFence(lines, i) && (lines[i].heading.Some? || (i + 1 < |lines| && lines[i + 1].underline))
  }

  function HeadingOf(line: Line): Heading {
    if line.heading.Some? then line.heading.value else Heading(2, line.stripped)
  }

  /** A heading replaces the titles of its level and below. */
  function Under(path: seq<string>, heading: Heading): seq<string> {
    var keep := if heading.level > 0 then heading.level - 1 else 0;
    (if keep < |path| then path[..keep] else path) + [heading.title]
  }

  /** The titles line `i` stands under. */
  function PathAt(lines: seq<Line>, i: nat): seq<string>
    requires i < |lines|
  {
    var before := if i > 0 then PathAt(lines, i - 1) else [];
    if StartsSection(lines, i) then Under(before, HeadingOf(lines[i])) else before
  }

  /** How many fence lines there are up to and including line `i`. */
  function FenceLines(lines: seq<Line>, i: nat): nat
    requires i < |lines|
  {
    (if i > 0 then FenceLines(lines, i - 1) else 0) + if lines[i].fence then 1 else 0
  }

  /** A line is inside a fence exactly if the fence lines up to it are odd in number. */
  lemma {:induction false} InFenceIsParity(lines: seq<Line>, i: nat)
    requires i < |lines|
    ensures InFence(lines, i) <==> FenceLines(lines, i) % 2 == 1
    decreases i
  {
    if i > 0 { InFenceIsParity(lines, i - 1); }
  }

  /** A heading of level n stands under at most the first n - 1 titles before it, and ends the path with its own. */
  lemma UnderExactly(path: seq<string>, heading: Heading)
    ensures var under := Under(path, heading);
            && under != [] && under[|under| - 1] == heading.title
            && under[..|under| - 1] <= path
            && |under| - 1 <= (if heading.level > 0 then heading.level - 1 else 0)
            && (|under| - 1 == (if heading.level > 0 then heading.level - 1 else 0) || under[..|under| - 1] == path)
  {
  }

  /** A section starts exactly at a heading, or at a line over a heading underline, after an even number of fence
      lines. */
  lemma StartsExactly(lines: seq<Line>, i: nat)
    requires i < |lines|
    ensures StartsSection(lines, i) <==> FenceLines(lines, i) % 2 == 0 && Heads(lines, i)
  {
    InFenceIsParity(lines, i);
  }

  predicate Heads(lines: seq<Line>, i: nat)
    requires i < |lines|
  {
    lines[i].heading.Some? || (i + 1 < |lines| && lines[i + 1].underline)
  }

  /** The path below a heading line: its title, or for an underlined line the line itself at level two, under at most
      the titles of the levels above. */
  ghost predicate PathBelow(line: Line, before: seq<string>, path: seq<string>) {
    var level := if line.heading.Some? then line.heading.value.level else 2;
    var kept := |path| - 1;
    && path != [] && path[kept] == (if line.heading.Some? then line.heading.value.title else line.stripped)
    && path[..kept] <= before && (kept + 1 == level || path[..kept] == before || (kept == 0 && level == 0))
    && kept <= level
  }

  /** The path of a line is that of the line before it, or, where a section starts, the one below its heading. */
  lemma PathOfLine(lines: seq<Line>, i: nat)
    requires i < |lines|
    ensures var before := if i > 0 then PathAt(lines, i - 1) else [];
            if StartsSection(lines, i) then PathBelow(lines[i], before, PathAt(lines, i))
            else PathAt(lines, i) == before
  {
    hide Under, StartsSection;
    if StartsSection(lines, i) { PathUnder(lines[i], if i > 0 then PathAt(lines, i - 1) else []); }
  }

  lemma PathUnder(line: Line, before: seq<string>)
    ensures PathBelow(line, before, Under(before, HeadingOf(line)))
  {
    UnderExactly(before, HeadingOf(line));
  }

  function LinesOf(sections: seq<Section>): seq<Line>
    decreases |sections|
  {
    if sections == [] then [] else LinesOf(sections[..|sections| - 1]) + sections[|sections| - 1].lines
  }

  /** A section is a stretch of lines from `first` on, under the path of its first line, in which no other line
      starts a section. */
  ghost predicate IsSection(lines: seq<Line>, s: Section, first: nat) {
    && s.lines != [] && first + |s.lines| <= |lines| && s.lines == lines[first..first + |s.lines|]
    && s.path == PathAt(lines, first)
    && (first > 0 ==> StartsSection(lines, first))
    && Plain(lines, first + 1, first + |s.lines|)
  }

  /** None of these lines starts a section. */
  ghost predicate Plain(lines: seq<Line>, low: nat, high: nat)
    requires high <= |lines|
  {
    low < high ==> !StartsSection(lines, high - 1) && Plain(lines, low, high - 1)
  }

  lemma {:induction false} PlainLine(lines: seq<Line>, low: nat, high: nat, i: nat)
    requires high <= |lines| && Plain(lines, low, high) && low <= i < high
    ensures !StartsSection(lines, i)
    decreases high
  {
    if i < high - 1 { PlainLine(lines, low, high - 1, i); }
  }

  /** The sections follow each other from the first line to line `end`. */
  ghost predicate Tile(lines: seq<Line>, sections: seq<Section>, end: nat)
    decreases |sections|
  {
    if sections == [] then end == 0
    else
      var n := |sections| - 1;
      var first := end - |sections[n].lines|;
      first >= 0 && IsSection(lines, sections[n], first) && Tile(lines, sections[..n], first)
  }

  lemma TileNext(lines: seq<Line>, sections: seq<Section>, end: nat, s: Section)
    requires Tile(lines, sections, end) && IsSection(lines, s, end)
    ensures Tile(lines, sections + [s], end + |s.lines|)
  {
    assert (sections + [s])[..|sections|] == sections;
  }

  /** A line that starts no section extends the open one. */
  lemma SectionGrows(lines: seq<Line>, s: Section, first: nat)
    requires IsSection(lines, s, first) && first + |s.lines| < |lines| && !StartsSection(lines, first + |s.lines|)
    ensures IsSection(lines, s.(lines := s.lines + [lines[first + |s.lines|]]), first)
  {
  }

  /** The lines from `first` to `i` are gathered in the open section. */
  ghost predicate Open(lines: seq<Line>, s: Section, first: nat, i: nat) {
    if i == 0 then first == 0 && s == Section([], []) else IsSection(lines, s, first) && first + |s.lines| == i
  }

  /** The loop before line `i`: finished sections up to `first`, the open one, the titles, the fence state. */
  ghost predicate Scanning(lines: seq<Line>, i: nat, sections: seq<Section>, current: Section, first: nat,
                           inFence: bool)
  {
    && i <= |lines| && Open(lines, current, first, i) && Tile(lines, sections, first)
    && inFence == (i > 0 && InFence(lines, i - 1))
    && current.path == if i > 0 then PathAt(lines, i - 1) else []
  }

  function Closed(sections: seq<Section>, current: Section): seq<Section> {
    if current.lines != [] then sections + [current] else sections
  }

  lemma CloseSection(lines: seq<Line>, i: nat, sections: seq<Section>, current: Section, first: nat, inFence: bool)
    requires Scanning(lines, i, sections, current, first, inFence)
    ensures Tile(lines, Closed(sections, current), i)
  {
    if i > 0 { TileNext(lines, sections, first, current); }
  }

  lemma ScanHeading(lines: seq<Line>, i: nat, sections: seq<Section>, current: Section, first: nat, inFence: bool)
    requires Scanning(lines, i, sections, current, first, inFence) && i < |lines| && StartsSection(lines, i)
    ensures Scanning(lines, i + 1, Closed(sections, current),
                     Section([lines[i]], Under(current.path, HeadingOf(lines[i]))), i, false)
  {
    CloseSection(lines, i, sections, current, first, inFence);
  }

  lemma ScanLine(lines: seq<Line>, i: nat, sections: seq<Section>, current: Section, first: nat, inFence: bool)
    requires Scanning(lines, i, sections, current, first, inFence) && i < |lines| && !StartsSection(lines, i)
    ensures Scanning(lines, i + 1, sections, current.(lines := current.lines + [lines[i]]), first, InFence(lines, i))
  {
    if i > 0 { SectionGrows(lines, current, first); }
  }

  datatype Scan = Scan(sections: seq<Section>, current: Section, inFence: bool)

  /** One line: toggles the fence, then tests for a heading. */
  method ScanOne(lines: seq<Line>, i: nat, scan: Scan, ghost first: nat) returns (next: Scan, ghost first': nat)
    requires Scanning(lines, i, scan.sections, scan.current, first, scan.inFence) && i < |lines|
    ensures Scanning(lines, i + 1, next.sections, next.current, first', next.inFence)
  {
    var line := lines[i];
    var inFence := if line.fence then !scan.inFence else scan.inFence;
    if !inFence && (line.heading.Some? || (i + 1 < |lines| && lines[i + 1].underline)) {
      ScanHeading(lines, i, scan.sections, scan.current, first, scan.inFence);
      next := Scan(Closed(scan.sections, scan.current), Section([line], Under(scan.current.path, HeadingOf(line))),
                   inFence);
      first' := i;
    } else {
      ScanLine(lines, i, scan.sections, scan.current, first, scan.inFence);
      next := Scan(scan.sections, scan.current.(lines := scan.current.lines + [line]), inFence);
      first' := first;
    }
  }

  /** One pass over the lines with the fence state, the open section and the stack of titles. */
  method Markup(lines: seq<Line>) returns (sections: seq<Section>)
    ensures Tile(lines, sections, |lines|)
  {
    var scan := Scan([], Section([], []), false);
    ghost var first: nat := 0;
    for i := 0 to |lines|
      invariant Scanning(lines, i, scan.sections, scan.current, first, scan.inFence)
    {
      scan, first := ScanOne(lines, i, scan, first);
    }
    CloseSection(lines, |lines|, scan.sections, scan.current, first, scan.inFence);
    return Closed(scan.sections, scan.current);
  }

  /** The sections put together are the document, line by line. */
  lemma {:induction false} SectionsCover(lines: seq<Line>, sections: seq<Section>, end: nat)
    requires Tile(lines, sections, end)
    ensures end <= |lines| && LinesOf(sections) == lines[..end]
    decreases |sections|
  {
    if sections != [] {
      var n := |sections| - 1;
      var first := end - |sections[n].lines|;
      SectionsCover(lines, sections[..n], first);
      assert lines[..end] == lines[..first] + lines[first..end];
    }
  }

  /** The line numbers at which sections begin. */
  function Starts(sections: seq<Section>): set<nat>
    decreases |sections|
  {
    if sections == [] then {}
    else Starts(sections[..|sections| - 1]) + {|LinesOf(sections[..|sections| - 1])|}
  }

  /** The boundaries are exactly the headings outside fences, and the first line. */
  lemma {:induction false} BoundariesAreHeadings(lines: seq<Line>, sections: seq<Section>, end: nat, i: nat)
    requires Tile(lines, sections, end) && i < |lines|
    ensures i in Starts(sections) <==> i < end && (i == 0 || StartsSection(lines, i))
    ensures i in Starts(sections) <==> i < end && (i == 0 || (FenceLines(lines, i) % 2 == 0 && Heads(lines, i)))
    decreases |sections|
  {
    StartsExactly(lines, i);
    if sections != [] {
      var n := |sections| - 1;
      var first := end - |sections[n].lines|;
      SectionsCover(lines, sections[..n], first);
      BoundariesAreHeadings(lines, sections[..n], first, i);
      assert IsSection(lines, sections[n], first);
      if first < i < end { PlainLine(lines, first + 1, end, i); }
    }
  }

  /** No section begins inside a fence, unless the document does. */
  lemma FencesStayWhole(lines: seq<Line>, sections: seq<Section>, i: nat)
    requires Tile(lines, sections, |lines|) && 0 < i < |lines| && InFence(lines, i)
    ensures i !in Starts(sections)
  {
    BoundariesAreHeadings(lines, sections, |lines|, i);
  }

  // ---- Parts of a long section ----

  datatype TextLine = TextLine(text: string)

  /** Parts are numbered from line one, ends included. */
  datatype Part = Part(lines: seq<TextLine>, startLine: nat, endLine: nat)

  /** The characters of the lines, each with its line break. */
  function Size(lines: seq<TextLine>): nat
    decreases |lines|
  {
    if lines == [] then 0 else Size(lines[..|lines| - 1]) + |lines[|lines| - 1].text| + 1
  }

  /** The length of the lines joined by line breaks. */
  function JoinedLength(lines: seq<TextLine>): nat {
    if lines == [] then 0 else Size(lines) - 1
  }

  /** A stretch of whole lines: more than one of them only within the limit, and the line after it would not
      have fitted any more. */
  ghost predicate IsPart(lines: seq<TextLine>, p: Part, maxChars: nat) {
    && 1 <= p.startLine <= p.endLine <= |lines|
    && p.lines == lines[p.startLine - 1..p.endLine]
    && (p.startLine < p.endLine ==> JoinedLength(p.lines) < maxChars)
    && (p.endLine < |lines| ==> Size(p.lines + [lines[p.endLine]]) > maxChars)
  }

  /** The parts cover lines 1 to `end` one after the other. */
  ghost predicate Packed(lines: seq<TextLine>, parts: seq<Part>, end: nat, maxChars: nat)
    decreases |parts|
  {
    if parts == [] then end == 0
    else
      var n := |parts| - 1;
      parts[n].endLine == end && IsPart(lines, parts[n], maxChars)
      && Packed(lines, parts[..n], parts[n].startLine - 1, maxChars)
  }

  lemma PackedNext(lines: seq<TextLine>, parts: seq<Part>, end: nat, maxChars: nat, p: Part)
    requires Packed(lines, parts, end, maxChars) && IsPart(lines, p, maxChars) && p.startLine == end + 1
    ensures Packed(lines, parts + [p], p.endLine, maxChars)
  {
    assert (parts + [p])[..|parts|] == parts;
  }

  lemma SizeNext(lines: seq<TextLine>, line: TextLine)
    ensures Size(lines + [line]) == Size(lines) + |line.text| + 1
  {
    assert (lines + [line])[..|lines|] == lines;
  }

  /** The loop before line `offset`: finished parts up to `start`, and the lines of the open one. */
  ghost predicate Packing(lines: seq<TextLine>, parts: seq<Part>, maxChars: nat, start: nat, offset: nat, size: nat) {
    && start <= offset <= |lines| && (offset > 0 ==> start < offset)
    && Packed(lines, parts, start, maxChars)
    && size == Size(lines[start..offset]) && (offset - start > 1 ==> size <= maxChars)
  }

  /** The open part ends where the next line would not fit, or at the end. */
  lemma EndPart(lines: seq<TextLine>, parts: seq<Part>, maxChars: nat, start: nat, offset: nat, size: nat)
    requires Packing(lines, parts, maxChars, start, offset, size) && start < offset
    requires offset < |lines| ==> size + |lines[offset].text| + 1 > maxChars
    ensures Packed(lines, parts + [Part(lines[start..offset], start + 1, offset)], offset, maxChars)
  {
    var part := Part(lines[start..offset], start + 1, offset);
    if offset < |lines| { SizeNext(part.lines, lines[offset]); }
    PackedNext(lines, parts, start, maxChars, part);
  }

  /** A line goes into the open part, or into a new one. */
  lemma AddLine(lines: seq<TextLine>, parts: seq<Part>, maxChars: nat, start: nat, offset: nat, size: nat)
    requires offset < |lines| && start <= offset && Packed(lines, parts, start, maxChars)
    requires size == Size(lines[start..offset])
    requires start < offset ==> size + |lines[offset].text| + 1 <= maxChars
    ensures Packing(lines, parts, maxChars, start, offset + 1, size + |lines[offset].text| + 1)
    ensures lines[start..offset + 1] == lines[start..offset] + [lines[offset]]
  {
    assert lines[start..offset + 1] == lines[start..offset] + [lines[offset]];
    SizeNext(lines[start..offset], lines[offset]);
  }

  /** The open part and what comes before it. */
  datatype Draft = Draft(parts: seq<Part>, current: seq<TextLine>, size: nat, start: nat)

  /** Ends the open part when the next line would exceed the limit. */
  method MakeRoom(lines: seq<TextLine>, d: Draft, offset: nat, maxChars: nat) returns (d': Draft)
    requires offset < |lines| && Packing(lines, d.parts, maxChars, d.start, offset, d.size)
    requires d.current == lines[d.start..offset]
    ensures d'.start <= offset && Packed(lines, d'.parts, d'.start, maxChars)
    ensures d'.current == lines[d'.start..offset] && d'.size == Size(d'.current)
    ensures d'.start < offset ==> d'.size + |lines[offset].text| + 1 <= maxChars
  {
    if d.current != [] && d.size + |lines[offset].text| + 1 > maxChars {
      EndPart(lines, d.parts, maxChars, d.start, offset, d.size);
      return Draft(d.parts + [Part(d.current, d.start + 1, offset)], [], 0, offset);
    }
    return d;
  }

  method PackOne(lines: seq<TextLine>, d: Draft, offset: nat, maxChars: nat) returns (d': Draft)
    requires offset < |lines| && Packing(lines, d.parts, maxChars, d.start, offset, d.size)
    requires d.current == lines[d.start..offset]
    ensures Packing(lines, d'.parts, maxChars, d'.start, offset + 1, d'.size)
    ensures d'.current == lines[d'.start..offset + 1]
  {
    d' := MakeRoom(lines, d, offset, maxChars);
    AddLine(lines, d'.parts, maxChars, d'.start, offset, d'.size);
    d' := d'.(current := d'.current + [lines[offset]], size := d'.size + |lines[offset].text| + 1);
  }

  /** Packs the lines greedily, in order. */
  method Pack(lines: seq<TextLine>, maxChars: nat) returns (parts: seq<Part>)
    ensures Packed(lines, parts, |lines|, maxChars)
  {
    var d := Draft([], [], 0, 0);
    for offset := 0 to |lines|
      invariant Packing(lines, d.parts, maxChars, d.start, offset, d.size)
      invariant d.current == lines[d.start..offset]
    {
      d := PackOne(lines, d, offset, maxChars);
    }
    if d.current == [] { return d.parts; }
    EndPart(lines, d.parts, maxChars, d.start, |lines|, d.size);
    return d.parts + [Part(d.current, d.start + 1, |lines|)];
  }

  function PartLines(parts: seq<Part>): seq<TextLine>
    decreases |parts|
  {
    if parts == [] then [] else PartLines(parts[..|parts| - 1]) + parts[|parts| - 1].lines
  }

  /** The parts put together are the section. */
  lemma {:induction false} PartsCover(lines: seq<TextLine>, parts: seq<Part>, end: nat, maxChars: nat)
    requires Packed(lines, parts, end, maxChars)
    ensures end <= |lines| && PartLines(parts) == lines[..end]
    decreases |parts|
  {
    if parts != [] {
      var n := |parts| - 1;
      var before := parts[n].startLine - 1;
      PartsCover(lines, parts[..n], before, maxChars);
      assert lines[..end] == lines[..before] + lines[before..end];
    }
  }

  // ---- From a text to its parts ----

  /** The characters that end a line. */
  predicate IsBreak(c: char) {
    || c == '\n' || c == '\r' || c == '\U{B}' || c == '\U{C}' || c == '\U{1C}' || c == '\U{1D}' || c == '\U{1E}'
    || c == '\U{85}' || c == '\U{2028}' || c == '\U{2029}'
  }

  /** By their code points. */
  lemma BreaksExactly(c: char)
    ensures IsBreak(c) <==> c as int in {10, 11, 12, 13, 28, 29, 30, 133, 8232, 8233}
  {
  }

  /** Every line break is white space. */
  ghost predicate SpaceOk(space: char -> bool) {
    forall c :: IsBreak(c) ==> space(c)
  }

  function Stripped(text: string, space: char -> bool): (value: string)
    ensures value != [] ==> !space(value[0]) && !space(value[|value| - 1])
    decreases |text|
  {
    if text == [] then []
    else if space(text[0]) then Stripped(text[1..], space)
    else if space(text[|text| - 1]) then Stripped(text[..|text| - 1], space)
    else text
  }

  /** Only white space is lost, and only at the ends. */
  lemma {:induction false} StrippedExactly(text: string, space: char -> bool) returns (low: nat, high: nat)
    ensures low <= high <= |text| && Stripped(text, space) == text[low..high]
    ensures forall i :: 0 <= i < low || high <= i < |text| ==> space(text[i])
    decreases |text|
  {
    low, high := 0, |text|;
    if text != [] {
      if space(text[0]) {
        var l, h := StrippedExactly(text[1..], space);
        low, high := l + 1, h + 1;
        assert text[1..][l..h] == text[low..high];
        forall i | 1 <= i < low || high <= i < |text| ensures space(text[i]) { assert text[1..][i - 1] == text[i]; }
      } else if space(text[|text| - 1]) {
        var front := text[..|text| - 1];
        low, high := StrippedExactly(front, space);
        assert front[low..high] == text[low..high];
        forall i | 0 <= i < low || high <= i < |front| ensures space(text[i]) { assert front[i] == text[i]; }
      }
    }
  }

  /** The ended lines, and the characters after the last line break. */
  datatype Cut = Cut(ended: seq<TextLine>, rest: string)

  /** A carriage return and the line feed after it are one line break. */
  predicate Pair(v: string) {
    |v| > 1 && v[|v| - 1] == '\n' && v[|v| - 2] == '\r'
  }

  function CutLines(v: string): Cut
    decreases |v|
  {
    if v == [] then Cut([], [])
    else
      var n := |v| - 1;
      var before := CutLines(v[..n]);
      if !IsBreak(v[n]) then before.(rest := before.rest + [v[n]])
      else if Pair(v) then before
      else Cut(before.ended + [TextLine(before.rest)], [])
  }

  function SplitLines(v: string): seq<TextLine> {
    var cut := CutLines(v);
    if cut.rest == [] then cut.ended else cut.ended + [TextLine(cut.rest)]
  }

  /** The text with every line break as one line feed. */
  function Normalized(v: string): string
    decreases |v|
  {
    if v == [] then []
    else
      var n := |v| - 1;
      var before := Normalized(v[..n]);
      if !IsBreak(v[n]) then before + [v[n]] else if Pair(v) then before else before + ['\n']
  }

  /** The second character of a line break. */
  predicate Second(v: string, i: nat)
    requires i < |v|
  {
    i > 0 && v[i] == '\n' && v[i - 1] == '\r'
  }

  /** Where the line breaks begin. */
  ghost function Breaks(v: string): set<int> {
    set i | 0 <= i < |v| && IsBreak(v[i]) && !Second(v, i)
  }

  lemma BreaksNext(v: string)
    requires v != []
    ensures var n := |v| - 1;
            Breaks(v) == Breaks(v[..n]) + if IsBreak(v[n]) && !Second(v, n) then {n} else {}
    ensures var n := |v| - 1; |Breaks(v)| == |Breaks(v[..n])| + if IsBreak(v[n]) && !Second(v, n) then 1 else 0
  {
    hide IsBreak;
    var n := |v| - 1;
    forall i | 0 <= i < n ensures Second(v[..n], i) == Second(v, i) {}
  }

  predicate WithoutBreaks(text: string) {
    forall i :: 0 <= i < |text| ==> !IsBreak(text[i])
  }

  /** Every line break ends a line, and no line has one in it. */
  lemma {:induction false} CutsAtBreaks(v: string)
    ensures |CutLines(v).ended| == |Breaks(v)|
    ensures forall k :: 0 <= k < |CutLines(v).ended| ==> WithoutBreaks(CutLines(v).ended[k].text)
    ensures WithoutBreaks(CutLines(v).rest)
    ensures v != [] ==> (CutLines(v).rest == [] <==> IsBreak(v[|v| - 1]))
    decreases |v|
  {
    hide IsBreak;
    if v != [] {
      CutsAtBreaks(v[..|v| - 1]);
      BreaksNext(v);
      assert IsBreak('\r') by { BreaksExactly('\r'); }
    }
  }

  /** There are as many lines as line breaks, and one more if the text does not end with one. */
  lemma SplitsAtBreaks(v: string)
    ensures |SplitLines(v)| == |Breaks(v)| + if v != [] && !IsBreak(v[|v| - 1]) then 1 else 0
    ensures forall k :: 0 <= k < |SplitLines(v)| ==> WithoutBreaks(SplitLines(v)[k].text)
  {
    CutsAtBreaks(v);
  }

  /** The characters that end no line. */
  function Kept(v: string): string
    decreases |v|
  {
    if v == [] then []
    else Kept(v[..|v| - 1]) + if IsBreak(v[|v| - 1]) then [] else [v[|v| - 1]]
  }

  /** Normalizing keeps every other character, and makes each line break one line feed. */
  lemma {:induction false} NormalizedKeeps(v: string)
    ensures Kept(Normalized(v)) == Kept(v) && |Normalized(v)| == |Kept(v)| + |Breaks(v)|
    ensures forall i :: 0 <= i < |Normalized(v)| && IsBreak(Normalized(v)[i]) ==> Normalized(v)[i] == '\n'
    decreases |v|
  {
    hide IsBreak;
    if v != [] {
      var n := |v| - 1;
      var before := Normalized(v[..n]);
      NormalizedKeeps(v[..n]);
      BreaksNext(v);
      BreaksExactly('\n');
      assert (before + [v[n]])[..|before|] == before && (before + ['\n'])[..|before|] == before;
    }
  }

  /** The lines with line feeds between them. */
  function Joined(lines: seq<TextLine>): string
    decreases |lines|
  {
    if lines == [] then []
    else if |lines| == 1 then lines[0].text
    else Joined(lines[..|lines| - 1]) + ['\n'] + lines[|lines| - 1].text
  }

  lemma {:induction false} JoinedSize(lines: seq<TextLine>)
    ensures |Joined(lines)| == JoinedLength(lines)
    decreases |lines|
  {
    if lines != [] {
      JoinedSize(lines[..|lines| - 1]);
      if |lines| == 1 { assert Size(lines[..0]) == 0; }
    }
  }

  lemma JoinedNext(lines: seq<TextLine>, line: TextLine)
    ensures Joined(lines + [line]) == if lines == [] then line.text else Joined(lines) + ['\n'] + line.text
  {
    assert (lines + [line])[..|lines|] == lines;
  }

  /** Splitting and joining again only normalizes the line breaks. */
  lemma {:induction false} CutJoined(v: string)
    ensures Joined(CutLines(v).ended + [TextLine(CutLines(v).rest)]) == Normalized(v)
    decreases |v|
  {
    var cut := CutLines(v);
    JoinedNext(cut.ended, TextLine(cut.rest));
    if v != [] {
      var n := |v| - 1;
      CutJoined(v[..n]);
      var before := CutLines(v[..n]);
      JoinedNext(before.ended, TextLine(before.rest));
      if !IsBreak(v[n]) {
        assert Normalized(v) == Normalized(v[..n]) + [v[n]];
      } else if !Pair(v) {
        assert cut.ended == before.ended + [TextLine(before.rest)];
        assert Joined(cut.ended) == Normalized(v[..n]);
        assert Joined(cut.ended) + ['\n'] + [] == Joined(cut.ended) + ['\n'];
      }
    }
  }

  lemma SplitJoined(v: string)
    requires v != [] && !IsBreak(v[|v| - 1])
    ensures Joined(SplitLines(v)) == Normalized(v)
  {
    CutJoined(v);
  }

  /** What is passed on of a text: nothing, the text whole and without line numbers, or numbered parts. */
  datatype Pieces = Nothing | Whole(value: string) | Numbered(parts: seq<Part>)

  /** A blank text gives nothing, one that fits is passed on as it is, and a longer one in parts of its lines,
      which put together are the text with its line breaks normalized. */
  method Fixed(text: string, space: char -> bool, maxChars: nat) returns (pieces: Pieces)
    requires SpaceOk(space)
    ensures pieces.Nothing? <==> Stripped(text, space) == []
    ensures pieces.Whole? <==> 0 < |Stripped(text, space)| <= maxChars
    ensures pieces.Whole? ==> pieces.value == Stripped(text, space)
    ensures pieces.Numbered? ==>
              var lines := SplitLines(Stripped(text, space));
              Packed(lines, pieces.parts, |lines|, maxChars)
              && Joined(PartLines(pieces.parts)) == Normalized(Stripped(text, space))
  {
    hide IsBreak, Stripped, SplitLines, Packed, PartLines, Joined, Normalized;
    var value := Stripped(text, space);
    if value == [] { return Nothing; }
    if |value| <= maxChars { return Whole(value); }
    var lines := SplitLines(value);
    var parts := Pack(lines, maxChars);
    PartsCover(lines, parts, |lines|, maxChars);
    assert lines[..|lines|] == lines;
    SplitJoined(value);
    return Numbered(parts);
  }
}
