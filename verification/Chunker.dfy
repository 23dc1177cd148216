/**
 The heading-aware markdown chunker of sera/memory/chunker.py. A text is its non-empty list of lines,
 so that joining with a newline is concatenation and joining with a blank line puts "" in between.
 */
module Chunker {
  import opened Wrappers

  datatype Heading = Heading(level: nat, text: string)

  // What the chunker asks of the outside: the heading pattern, str.strip and the token estimate.
  datatype Markdown = Markdown(
    heading: string -> Option<Heading>,
    blank: string -> bool,
    estimate: seq<string> -> nat)

  type Lines = seq<string>

  datatype Chunk = Chunk(content: Lines, headingPath: seq<string>, startLine: nat, endLine: nat, tokens: nat)

  function Hashes(n: nat): string {
    if n == 0 then "" else "#" + Hashes(n - 1)
  }

  function HeadLine(h: Heading): string {
    Hashes(h.level) + " " + h.text
  }

  // The canonical heading line: as many marks as the level says, a space, the text.
  lemma {:induction false} HeadLineIs(h: Heading)
    ensures |HeadLine(h)| == h.level + 1 + |h.text|
    ensures forall i :: 0 <= i < h.level ==> HeadLine(h)[i] == '#'
    ensures HeadLine(h)[h.level..] == " " + h.text
  {
    HashesAre(h.level);
  }

  lemma {:induction false} HashesAre(n: nat)
    ensures |Hashes(n)| == n && forall i :: 0 <= i < n ==> Hashes(n)[i] == '#'
  {
    if n > 0 {
      HashesAre(n - 1);
    }
  }

  // What the heading pattern guarantees: one to six marks, and nothing blank.
  ghost predicate Lawful(md: Markdown) {
    md.blank("")
    && forall line :: md.heading(line).Some? ==>
         var h := md.heading(line).value;
         !md.blank(line) && 1 <= h.level <= 6 && !md.blank(HeadLine(h))
  }

  // ---------- what the document says ----------

  // _update_path; a level deeper than the path by more than one is simply pushed.
  function UpdatePath(path: seq<string>, h: Heading): seq<string>
    requires h.level >= 1
  {
    (if h.level - 1 <= |path| then path[..h.level - 1] else path) + [h.text]
  }

  // The heading stack after the first n lines.
  function StackAfter(md: Markdown, lines: Lines, n: nat): seq<string>
    requires n <= |lines|
  {
    if n == 0 then [] else
      var h := md.heading(lines[n - 1]);
      if h.Some? && h.value.level >= 1 then UpdatePath(StackAfter(md, lines, n - 1), h.value)
      else StackAfter(md, lines, n - 1)
  }

  // ---------- what the heading stack means ----------

  predicate IsHeading(md: Markdown, lines: Lines, j: nat) {
    j < |lines| && md.heading(lines[j]).Some? && md.heading(lines[j]).value.level >= 1
  }

  function LevelAt(md: Markdown, lines: Lines, j: nat): nat
    requires IsHeading(md, lines, j)
  {
    md.heading(lines[j]).value.level
  }

  function TextAt(md: Markdown, lines: Lines, j: nat): string
    requires IsHeading(md, lines, j)
  {
    md.heading(lines[j]).value.text
  }

  /**
   A heading of level n cuts the path to its first n - 1 entries, or leaves a shorter one as it is, and puts its
   text behind them; other lines do not touch the path.
   */
  lemma PathAfterLine(md: Markdown, lines: Lines, j: nat)
    requires j < |lines|
    ensures StackAfter(md, lines, 0) == []
    ensures var before, after := StackAfter(md, lines, j), StackAfter(md, lines, j + 1);
      if IsHeading(md, lines, j) then
        var kept := if LevelAt(md, lines, j) <= |before| then LevelAt(md, lines, j) - 1 else |before|;
        |after| == kept + 1 <= LevelAt(md, lines, j) && after[kept] == TextAt(md, lines, j)
            && after[..kept] == before[..kept]
      else after == before
  {
    hide StackAfter;
    StackOneMore(md, lines, j);
  }

  lemma StackOneMore(md: Markdown, lines: Lines, j: nat)
    requires j < |lines|
    ensures StackAfter(md, lines, 0) == []
    ensures StackAfter(md, lines, j + 1) ==
            if IsHeading(md, lines, j) then UpdatePath(StackAfter(md, lines, j), md.heading(lines[j]).value)
            else StackAfter(md, lines, j)
  {}

  // The section of the heading at j is still open in front of line n: no later heading is of the same or a lower level.
  predicate Open(md: Markdown, lines: Lines, n: nat, j: nat) {
    j < n && IsHeading(md, lines, j)
    && forall k :: j < k < n && IsHeading(md, lines, k) ==> LevelAt(md, lines, k) > LevelAt(md, lines, j)
  }

  // The headings among the first k lines whose sections are open in front of line n, in order.
  function OpenAmong(md: Markdown, lines: Lines, n: nat, k: nat): (open: seq<nat>)
    requires k <= |lines|
    ensures forall i :: 0 <= i < |open| ==> open[i] < k && Open(md, lines, n, open[i])
    ensures forall i, j :: 0 <= i < j < |open| ==> open[i] < open[j]
  {
    if k == 0 then [] else OpenAmong(md, lines, n, k - 1) + if Open(md, lines, n, k - 1) then [k - 1] else []
  }

  function OpenTexts(md: Markdown, lines: Lines, open: seq<nat>): seq<string>
    requires forall i :: 0 <= i < |open| ==> IsHeading(md, lines, open[i])
  {
    seq(|open|, i requires 0 <= i < |open| => TextAt(md, lines, open[i]))
  }

  // The path is the texts of the open sections.
  predicate PathIsOpen(md: Markdown, lines: Lines, n: nat)
    requires n <= |lines|
  {
    StackAfter(md, lines, n) == OpenTexts(md, lines, OpenAmong(md, lines, n, n))
  }

  // The sections open in front of j that the heading at j leaves open are those at the first places of the path.
  predicate LevelFits(md: Markdown, lines: Lines, j: nat)
    requires IsHeading(md, lines, j)
  {
    var open := OpenAmong(md, lines, j, j);
    forall i :: 0 <= i < |open| ==>
        (LevelAt(md, lines, open[i]) < LevelAt(md, lines, j) <==> i < LevelAt(md, lines, j) - 1)
  }

  // No heading is more than one level below the last one in front of it, and the first is of level one.
  predicate NoLevelSkipped(md: Markdown, lines: Lines, n: nat) {
    forall j :: 0 <= j < n && IsHeading(md, lines, j) && LevelAt(md, lines, j) > 1 ==>
      exists i :: 0 <= i < j && IsHeading(md, lines, i) && LevelAt(md, lines, i) + 1 >= LevelAt(md, lines, j)
               && forall k :: i < k < j ==> !IsHeading(md, lines, k)
  }

  // after is the front of before whose sections the heading at m leaves open.
  predicate LeftOpen(md: Markdown, lines: Lines, m: nat, before: seq<nat>, after: seq<nat>)
    requires IsHeading(md, lines, m)
  {
    after <= before
    && (forall i :: 0 <= i < |before| ==> IsHeading(md, lines, before[i]))
    && forall i :: 0 <= i < |before| ==> (LevelAt(md, lines, before[i]) < LevelAt(md, lines, m) <==> i < |after|)
  }

  lemma LeftOpenGrows(md: Markdown, lines: Lines, m: nat, before: seq<nat>, after: seq<nat>, j: nat)
    requires IsHeading(md, lines, m) && LeftOpen(md, lines, m, before, after) && IsHeading(md, lines, j)
    requires forall i :: 0 <= i < |before| ==> LevelAt(md, lines, before[i]) < LevelAt(md, lines, j)
    ensures LeftOpen(md, lines, m, before + [j],
                     after + if LevelAt(md, lines, j) < LevelAt(md, lines, m) then [j] else [])
  {
    hide IsHeading;
    if LevelAt(md, lines, j) < LevelAt(md, lines, m) {
      var last := |before| - 1;
      assert before != [] ==> LevelAt(md, lines, before[last]) < LevelAt(md, lines, m);
      assert after == before;
    }
  }

  lemma OpenLevelsGrow(md: Markdown, lines: Lines, m: nat, j: nat)
    requires j < m && j < |lines| && Open(md, lines, m, j)
    ensures IsHeading(md, lines, j)
    ensures var before := OpenAmong(md, lines, m, j);
      forall i :: 0 <= i < |before| ==>
        IsHeading(md, lines, before[i]) && LevelAt(md, lines, before[i]) < LevelAt(md, lines, j)
  {
    var before := OpenAmong(md, lines, m, j);
    forall i | 0 <= i < |before|
      ensures IsHeading(md, lines, before[i]) && LevelAt(md, lines, before[i]) < LevelAt(md, lines, j)
    {
      assert Open(md, lines, m, before[i]);
    }
  }

  // A heading of level n closes the open sections of level n and below, which are the last ones.
  lemma {:induction false} HeadingCloses(md: Markdown, lines: Lines, m: nat, k: nat)
    requires IsHeading(md, lines, m) && k <= m
    ensures LeftOpen(md, lines, m, OpenAmong(md, lines, m, k), OpenAmong(md, lines, m + 1, k))
  {
    hide Open, LeftOpen;
    if k == 0 {
      NoneLeftOpen(md, lines, m);
    } else {
      HeadingCloses(md, lines, m, k - 1);
      StillOpen(md, lines, m, k - 1);
      assert forall open: seq<nat> :: open + [] == open;
      if Open(md, lines, m, k - 1) {
        OpenLevelsGrow(md, lines, m, k - 1);
        LeftOpenGrows(md, lines, m, OpenAmong(md, lines, m, k - 1), OpenAmong(md, lines, m + 1, k - 1), k - 1);
      }
    }
  }

  lemma NoneLeftOpen(md: Markdown, lines: Lines, m: nat)
    requires IsHeading(md, lines, m)
    ensures LeftOpen(md, lines, m, [], [])
  {}

  lemma OpenAreHeadings(md: Markdown, lines: Lines, n: nat, k: nat)
    requires k <= |lines|
    ensures var open := OpenAmong(md, lines, n, k); forall i :: 0 <= i < |open| ==> IsHeading(md, lines, open[i])
  {}

  lemma StillOpen(md: Markdown, lines: Lines, m: nat, j: nat)
    requires j < m
    ensures IsHeading(md, lines, m) ==>
      (Open(md, lines, m + 1, j) <==> Open(md, lines, m, j) && LevelAt(md, lines, j) < LevelAt(md, lines, m))
    ensures !IsHeading(md, lines, m) ==> (Open(md, lines, m + 1, j) <==> Open(md, lines, m, j))
  {}

  lemma {:induction false} SameOpen(md: Markdown, lines: Lines, m: nat, k: nat)
    requires !IsHeading(md, lines, m) && k <= m && k <= |lines|
    ensures OpenAmong(md, lines, m + 1, k) == OpenAmong(md, lines, m, k)
  {
    hide Open;
    if k > 0 {
      SameOpen(md, lines, m, k - 1);
      StillOpen(md, lines, m, k - 1);
    }
  }

  // One more line: the path stays the open sections exactly if the line is no heading or its level fits.
  lemma LineKeepsPath(md: Markdown, lines: Lines, m: nat)
    requires m < |lines| && PathIsOpen(md, lines, m)
    ensures PathIsOpen(md, lines, m + 1) <==> (IsHeading(md, lines, m) ==> LevelFits(md, lines, m))
  {
    hide StackAfter, UpdatePath;
    PathAfterLine(md, lines, m);
    var before, after := OpenAmong(md, lines, m, m), OpenAmong(md, lines, m + 1, m + 1);
    var front := OpenAmong(md, lines, m + 1, m);
    if IsHeading(md, lines, m) {
      HeadingCloses(md, lines, m, m);
      assert Open(md, lines, m + 1, m) && after == front + [m];
      HeadingFits(md, lines, m);
    } else {
      SameOpen(md, lines, m, m);
      assert !Open(md, lines, m + 1, m) && after == before;
    }
  }

  lemma HeadingFits(md: Markdown, lines: Lines, m: nat)
    requires IsHeading(md, lines, m) && PathIsOpen(md, lines, m)
    requires OpenAmong(md, lines, m + 1, m + 1) == OpenAmong(md, lines, m + 1, m) + [m]
    ensures PathIsOpen(md, lines, m + 1) <==> LevelFits(md, lines, m)
  {
    hide StackAfter, UpdatePath, OpenAmong, Open;
    PathAfterLine(md, lines, m);
    OpenAreHeadings(md, lines, m, m);
    OpenAreHeadings(md, lines, m + 1, m);
    OpenAreHeadings(md, lines, m + 1, m + 1);
    HeadingCloses(md, lines, m, m);
    var before, front := OpenAmong(md, lines, m, m), OpenAmong(md, lines, m + 1, m);
    var level := LevelAt(md, lines, m);
    var kept := if level <= |before| then level - 1 else |before|;
    assert |StackAfter(md, lines, m + 1)| == kept + 1;
    assert |front| < |before| ==> LevelAt(md, lines, before[|front|]) >= level;
    assert kept < |before| ==> (LevelAt(md, lines, before[kept]) < level <==> kept < |front|);
    assert LevelFits(md, lines, m) <==> |front| == kept;
    if |front| == kept {
      assert OpenTexts(md, lines, front + [m]) == OpenTexts(md, lines, before)[..kept] + [TextAt(md, lines, m)];
    }
  }

  /**
   The paths of the first n lines are the open sections, that is the earlier headings that no later heading of
   the same or a lower level has closed, exactly if the level of every heading fits what is open in front of it.
   */
  lemma {:induction false} PathsAreOpenSections(md: Markdown, lines: Lines, n: nat)
    requires n <= |lines|
    ensures (forall m :: 0 <= m <= n ==> PathIsOpen(md, lines, m))
            <==> forall j :: 0 <= j < n && IsHeading(md, lines, j) ==> LevelFits(md, lines, j)
  {
    hide PathIsOpen, LevelFits;
    if n == 0 {
      NothingOpen(md, lines);
    } else {
      PathsAreOpenSections(md, lines, n - 1);
      if PathIsOpen(md, lines, n - 1) {
        LineKeepsPath(md, lines, n - 1);
      }
    }
  }

  lemma {:induction false} NearestIsLast(md: Markdown, lines: Lines, m: nat, k: nat, i: nat)
    requires IsHeading(md, lines, i) && i < k <= m <= |lines| && forall j :: i < j < m ==> !IsHeading(md, lines, j)
    ensures var open := OpenAmong(md, lines, m, k); open != [] && open[|open| - 1] == i
  {
    if k == i + 1 {
      assert Open(md, lines, m, i);
    } else {
      NearestIsLast(md, lines, m, k - 1, i);
      assert !Open(md, lines, m, k - 1);
    }
  }

  // The levels of the open sections are one, two, three and so on.
  predicate Consecutive(md: Markdown, lines: Lines, open: seq<nat>) {
    forall i :: 0 <= i < |open| ==> IsHeading(md, lines, open[i]) && LevelAt(md, lines, open[i]) == i + 1
  }

  lemma {:induction false} LevelsAreConsecutive(md: Markdown, lines: Lines, n: nat, m: nat)
    requires m <= n <= |lines| && NoLevelSkipped(md, lines, n)
    ensures Consecutive(md, lines, OpenAmong(md, lines, m, m))
  {
    hide Open, NoLevelSkipped, LeftOpen, Consecutive, IsHeading;
    if m == 0 {
      NoLevels(md, lines);
    } else {
      LevelsAreConsecutive(md, lines, n, m - 1);
      var before, after := OpenAmong(md, lines, m - 1, m - 1), OpenAmong(md, lines, m, m - 1);
      assert forall open: seq<nat> :: open + [] == open;
      LastIsOpen(md, lines, m - 1);
      if IsHeading(md, lines, m - 1) {
        HeadingCloses(md, lines, m - 1, m - 1);
        AtMostOneDeeper(md, lines, n, m - 1);
        HeadingIsConsecutive(md, lines, m - 1, before, after);
      } else {
        SameOpen(md, lines, m - 1, m - 1);
      }
    }
  }

  lemma NoLevels(md: Markdown, lines: Lines)
    ensures Consecutive(md, lines, [])
  {}

  lemma HeadingIsConsecutive(md: Markdown, lines: Lines, m: nat, before: seq<nat>, after: seq<nat>)
    requires IsHeading(md, lines, m) && Consecutive(md, lines, before) && LeftOpen(md, lines, m, before, after)
    requires LevelAt(md, lines, m) <= |before| + 1
    ensures Consecutive(md, lines, after + [m])
  {
    assert |after| < |before| ==> LevelAt(md, lines, before[|after|]) == |after| + 1;
    assert |after| > 0 ==> LevelAt(md, lines, before[|after| - 1]) == |after|;
  }

  lemma LastIsOpen(md: Markdown, lines: Lines, m: nat)
    requires m < |lines|
    ensures Open(md, lines, m + 1, m) <==> IsHeading(md, lines, m)
  {}

  lemma AtMostOneDeeper(md: Markdown, lines: Lines, n: nat, m: nat)
    requires m < n <= |lines| && NoLevelSkipped(md, lines, n) && IsHeading(md, lines, m)
    requires Consecutive(md, lines, OpenAmong(md, lines, m, m))
    ensures LevelAt(md, lines, m) <= |OpenAmong(md, lines, m, m)| + 1
  {
    hide OpenAmong;
    if LevelAt(md, lines, m) > 1 {
      var i :| 0 <= i < m && IsHeading(md, lines, i) && LevelAt(md, lines, i) + 1 >= LevelAt(md, lines, m)
               && forall k :: i < k < m ==> !IsHeading(md, lines, k);
      NearestIsLast(md, lines, m, m, i);
    }
  }

  // So where no level is skipped the paths are the open sections.
  lemma UnskippedPathsAreOpenSections(md: Markdown, lines: Lines, n: nat)
    requires n <= |lines| && NoLevelSkipped(md, lines, n)
    ensures StackAfter(md, lines, n) == OpenTexts(md, lines, OpenAmong(md, lines, n, n))
  {
    hide NoLevelSkipped, StackAfter;
    forall j | 0 <= j < n && IsHeading(md, lines, j)
      ensures LevelFits(md, lines, j)
    {
      LevelsAreConsecutive(md, lines, n, j);
    }
    PathsAreOpenSections(md, lines, n);
    assert PathIsOpen(md, lines, n);
  }

  // Behind a skipped level the path is wrong: the second heading of level three does not close the first.
  lemma SkippedLevelStaysOpen(md: Markdown)
    requires md.heading("# a") == Some(Heading(1, "a"))
    requires md.heading("### b") == Some(Heading(3, "b")) && md.heading("### c") == Some(Heading(3, "c"))
    ensures var lines := ["# a", "### b", "### c"];
      && StackAfter(md, lines, 3) == ["a", "b", "c"]
      && OpenAmong(md, lines, 3, 3) == [0, 2]
      && !LevelFits(md, lines, 2)
  {
    var lines := ["# a", "### b", "### c"];
    assert StackAfter(md, lines, 1) == ["a"] && StackAfter(md, lines, 2) == ["a", "b"];
    assert Open(md, lines, 3, 0) && !Open(md, lines, 3, 1) && Open(md, lines, 3, 2);
    assert OpenAmong(md, lines, 3, 1) == [0] && OpenAmong(md, lines, 3, 2) == [0];
    assert Open(md, lines, 2, 0) && Open(md, lines, 2, 1);
    assert OpenAmong(md, lines, 2, 1) == [0] && OpenAmong(md, lines, 2, 2) == [0, 1];
    assert LevelAt(md, lines, OpenAmong(md, lines, 2, 2)[1]) == 3;
  }

  lemma NothingOpen(md: Markdown, lines: Lines)
    ensures PathIsOpen(md, lines, 0)
  {}

  // The numbers of the lines among the first n that are not blank.
  function InkedLines(md: Markdown, lines: Lines, n: nat): seq<nat>
    requires n <= |lines|
  {
    if n == 0 then []
    else InkedLines(md, lines, n - 1) + if md.blank(lines[n - 1]) then [] else [n - 1]
  }

  function Inked(md: Markdown, lines: Lines): Lines {
    if lines == [] then [] else
      var last := |lines| - 1;
      Inked(md, lines[..last]) + if md.blank(lines[last]) then [] else [lines[last]]
  }

  // A line as a chunk shows it: headings in canonical form.
  function Canonical(md: Markdown, line: string): string {
    if md.heading(line).Some? then HeadLine(md.heading(line).value) else line
  }

  function CanonicalLines(md: Markdown, lines: Lines, numbers: seq<nat>): Lines
    requires forall k :: k in numbers ==> k < |lines|
  {
    seq(|numbers|, i requires 0 <= i < |numbers| => assert numbers[i] in numbers; Canonical(md, lines[numbers[i]]))
  }

  // ---------- a chunk together with where its lines come from ----------

  // drop: the number of leading lines carried over; origins: the line numbers of the others that are not blank.
  datatype Piece = Piece(chunk: Chunk, drop: nat, origins: seq<nat>)

  ghost predicate PieceOk(md: Markdown, lines: Lines, p: Piece) {
    && (forall k :: k in p.origins ==> k < |lines|)
    && p.drop <= |p.chunk.content|
    && Inked(md, p.chunk.content[p.drop..]) == CanonicalLines(md, lines, p.origins)
    && 1 <= p.chunk.startLine <= p.chunk.endLine
    && (forall k :: k in p.origins ==>
          && p.chunk.startLine <= k + 1 <= p.chunk.endLine
          && StackAfter(md, lines, k + 1) == p.chunk.headingPath)
    && (forall j :: 0 <= j < |p.origins| ==>
          p.origins[j] < |lines| && (md.heading(lines[p.origins[j]]).Some? ==> j == 0 && p.drop == 0))
  }

  predicate IsSuffix(a: Lines, b: Lines) {
    |a| <= |b| && a == b[|b| - |a|..]
  }

  // next follows after prev: its carried lines end prev, and its line range does not go back.
  predicate Follows(prev: Piece, next: Piece) {
    prev.chunk.endLine <= next.chunk.startLine
    && next.drop <= |next.chunk.content|
    && IsSuffix(next.chunk.content[..next.drop], prev.chunk.content)
  }

  ghost predicate Chained(md: Markdown, lines: Lines, pieces: seq<Piece>) {
    && (forall i :: 0 <= i < |pieces| ==> PieceOk(md, lines, pieces[i]))
    && (forall i :: 0 < i < |pieces| ==> Follows(pieces[i - 1], pieces[i]))
    && (pieces != [] ==> pieces[0].drop == 0)
  }

  function AllOrigins(pieces: seq<Piece>): seq<nat> {
    if pieces == [] then [] else AllOrigins(pieces[..|pieces| - 1]) + pieces[|pieces| - 1].origins
  }

  predicate PiecesOf(chunks: seq<Chunk>, pieces: seq<Piece>) {
    |pieces| == |chunks| && forall i :: 0 <= i < |chunks| ==> pieces[i].chunk == chunks[i]
  }

  // ---------- building one piece ----------

  // A builder's parts joined with blank lines.
  function JoinParts(parts: seq<Lines>): Lines {
    if parts == [] then [] else if |parts| == 1 then parts[0]
    else JoinParts(parts[..|parts| - 1]) + [""] + parts[|parts| - 1]
  }

  lemma JoinOnePart(parts: seq<Lines>, part: Lines)
    ensures JoinParts(parts + [part]) == if parts == [] then part else JoinParts(parts) + [""] + part
  {
    assert (parts + [part])[..|parts|] == parts;
  }

  lemma {:induction false} InkedConcat(md: Markdown, a: Lines, b: Lines)
    ensures Inked(md, a + b) == Inked(md, a) + Inked(md, b)
  {
    hide Inked;
    if b == [] {
      InkedNothing(md);
      assert a + b == a;
    } else {
      var front, last := b[..|b| - 1], b[|b| - 1];
      InkedConcat(md, a, front);
      InkedOneMore(md, a + front, last);
      InkedOneMore(md, front, last);
      assert b == front + [last] && a + b == (a + front) + [last];
    }
  }

  lemma InkedNothing(md: Markdown)
    ensures Inked(md, []) == []
  {}

  lemma InkedOneMore(md: Markdown, lines: Lines, line: string)
    ensures Inked(md, lines + [line]) == Inked(md, lines) + if md.blank(line) then [] else [line]
  {
    assert (lines + [line])[..|lines|] == lines;
  }

  lemma InkedOfAppended(md: Markdown, content: Lines, drop: nat, part: Lines)
    requires Lawful(md) && drop <= |content|
    ensures Inked(md, (content + [""] + part)[drop..]) == Inked(md, content[drop..]) + Inked(md, part)
  {
    assert (content + [""] + part)[drop..] == content[drop..] + ([""] + part);
    InkedConcat(md, content[drop..], [""] + part);
    InkedConcat(md, [""], part);
    assert [""][..0] == [];
  }

  lemma CanonicalConcat(md: Markdown, lines: Lines, a: seq<nat>, b: seq<nat>)
    requires (forall k :: k in a ==> k < |lines|) && forall k :: k in b ==> k < |lines|
    ensures forall k :: k in a + b ==> k < |lines|
    ensures CanonicalLines(md, lines, a + b) == CanonicalLines(md, lines, a) + CanonicalLines(md, lines, b)
  {}

  // Lines first to last (one-based, both included) of the document, none of them blank or a heading.
  ghost predicate PlainRun(md: Markdown, lines: Lines, first: nat, part: Lines) {
    1 <= first && first - 1 + |part| <= |lines|
    && forall i :: 0 <= i < |part| ==>
         part[i] == lines[first - 1 + i] && !md.blank(part[i]) && md.heading(part[i]).None?
  }

  function Numbers(first: nat, n: nat): seq<nat>
    requires first >= 1
  {
    seq(n, i requires 0 <= i => first - 1 + i)
  }

  lemma {:induction false} InkedOfRun(md: Markdown, lines: Lines, first: nat, part: Lines)
    requires PlainRun(md, lines, first, part)
    ensures forall k :: k in Numbers(first, |part|) ==> k < |lines|
    ensures Inked(md, part) == CanonicalLines(md, lines, Numbers(first, |part|)) == part
  {
    hide Inked, StackAfter, InkedLines;
    if part == [] {
      InkedNothing(md);
    } else {
      var front, last := part[..|part| - 1], part[|part| - 1];
      InkedOfRun(md, lines, first, front);
      InkedOneMore(md, front, last);
      assert part == front + [last];
      RunIsCanonical(md, lines, first, part);
    }
  }

  lemma RunIsCanonical(md: Markdown, lines: Lines, first: nat, part: Lines)
    requires PlainRun(md, lines, first, part)
    ensures forall k :: k in Numbers(first, |part|) ==> k < |lines|
    ensures CanonicalLines(md, lines, Numbers(first, |part|)) == part
  {}

  // The stack does not change over a run without headings.
  lemma {:induction false} StackOverRun(md: Markdown, lines: Lines, first: nat, part: Lines, n: nat)
    requires PlainRun(md, lines, first, part) && n <= |part|
    ensures StackAfter(md, lines, first - 1 + n) == StackAfter(md, lines, first - 1)
  {
    if n > 0 {
      StackOverRun(md, lines, first, part, n - 1);
      assert part[n - 1] == lines[first - 1 + n - 1];
    }
  }

  lemma {:induction false} InkedOverRun(md: Markdown, lines: Lines, first: nat, part: Lines, n: nat)
    requires PlainRun(md, lines, first, part) && n <= |part|
    ensures InkedLines(md, lines, first - 1 + n) == InkedLines(md, lines, first - 1) + Numbers(first, n)
  {
    if n > 0 {
      InkedOverRun(md, lines, first, part, n - 1);
      assert part[n - 1] == lines[first - 1 + n - 1];
      assert Numbers(first, n) == Numbers(first, n - 1) + [first - 1 + n - 1];
    }
  }

  // The piece with one more part, a plain run of the document.
  function WithRun(p: Piece, empty: bool, first: nat, part: Lines, cost: nat): Piece
    requires first >= 1 && part != []
  {
    Piece(
      p.chunk.(content := if empty then part else p.chunk.content + [""] + part,
               endLine := first + |part| - 1,
               tokens := p.chunk.tokens + cost),
      p.drop,
      p.origins + Numbers(first, |part|))
  }

  lemma RunContent(md: Markdown, lines: Lines, p: Piece, empty: bool, first: nat, part: Lines, cost: nat)
    requires Lawful(md) && PieceOk(md, lines, p) && part != [] && PlainRun(md, lines, first, part)
    requires empty ==> p.chunk.content == [] && p.origins == []
    ensures var q := WithRun(p, empty, first, part, cost);
      && (forall k :: k in q.origins ==> k < |lines|)
      && q.drop <= |q.chunk.content|
      && Inked(md, q.chunk.content[q.drop..]) == CanonicalLines(md, lines, q.origins)
  {
    var numbers := Numbers(first, |part|);
    InkedOfRun(md, lines, first, part);
    CanonicalConcat(md, lines, p.origins, numbers);
    hide Inked, CanonicalLines;
    if empty {
      assert part[0..] == part;
      assert p.origins + numbers == numbers;
    } else {
      InkedOfAppended(md, p.chunk.content, p.drop, part);
    }
  }

  lemma RunNumbers(md: Markdown, lines: Lines, p: Piece, empty: bool, first: nat, part: Lines, cost: nat, k: nat)
    requires PieceOk(md, lines, p) && part != [] && PlainRun(md, lines, first, part)
    requires p.chunk.endLine <= first && StackAfter(md, lines, first - 1) == p.chunk.headingPath
    requires k in WithRun(p, empty, first, part, cost).origins
    ensures var q := WithRun(p, empty, first, part, cost);
      k < |lines| && q.chunk.startLine <= k + 1 <= q.chunk.endLine
          && StackAfter(md, lines, k + 1) == q.chunk.headingPath
  {
    hide Inked, CanonicalLines, StackAfter;
    if k !in p.origins {
      var i :| 0 <= i < |part| && k == first - 1 + i;
      StackOverRun(md, lines, first, part, i + 1);
    }
  }

  lemma RunHeadings(md: Markdown, lines: Lines, p: Piece, empty: bool, first: nat, part: Lines, cost: nat, j: nat)
    requires PieceOk(md, lines, p) && part != [] && PlainRun(md, lines, first, part)
    requires j < |WithRun(p, empty, first, part, cost).origins|
    ensures var q := WithRun(p, empty, first, part, cost);
      q.origins[j] < |lines| && (md.heading(lines[q.origins[j]]).Some? ==> j == 0 && q.drop == 0)
  {
    hide Inked, CanonicalLines, StackAfter;
    var q := WithRun(p, empty, first, part, cost);
    if |p.origins| <= j {
      var i := j - |p.origins|;
      assert q.origins[j] == first - 1 + i && part[i] == lines[first - 1 + i];
    } else {
      assert q.origins[j] == p.origins[j];
    }
  }

  lemma RunKeepsPiece(md: Markdown, lines: Lines, p: Piece, empty: bool, first: nat, part: Lines, cost: nat)
    requires Lawful(md) && PieceOk(md, lines, p) && part != [] && PlainRun(md, lines, first, part)
    requires empty ==> p.chunk.content == [] && p.origins == []
    requires p.chunk.endLine <= first && StackAfter(md, lines, first - 1) == p.chunk.headingPath
    ensures PieceOk(md, lines, WithRun(p, empty, first, part, cost))
  {
    var q := WithRun(p, empty, first, part, cost);
    RunContent(md, lines, p, empty, first, part, cost);
    forall k | k in q.origins
      ensures q.chunk.startLine <= k + 1 <= q.chunk.endLine && StackAfter(md, lines, k + 1) == q.chunk.headingPath
    {
      RunNumbers(md, lines, p, empty, first, part, cost, k);
    }
    forall j | 0 <= j < |q.origins|
      ensures q.origins[j] < |lines| && (md.heading(lines[q.origins[j]]).Some? ==> j == 0 && q.drop == 0)
    {
      RunHeadings(md, lines, p, empty, first, part, cost, j);
    }
    assert 1 <= q.chunk.startLine <= q.chunk.endLine;
  }

  // A piece that starts with a heading line.
  lemma HeadingPiece(md: Markdown, lines: Lines, at: nat, tokens: nat)
    requires Lawful(md) && at < |lines| && md.heading(lines[at]).Some?
    ensures var h := md.heading(lines[at]).value;
      h.level >= 1 && PieceOk(md, lines,
        Piece(Chunk([HeadLine(h)], UpdatePath(StackAfter(md, lines, at), h), at + 1, at + 1, tokens), 0, [at]))
  {
    var line := HeadLine(md.heading(lines[at]).value);
    assert [line][0..] == [line] && [line][..0] == [];
    assert Inked(md, [line]) == [] + [line];
  }

  // A piece that holds only carried lines, or nothing.
  lemma CarriedPiece(md: Markdown, lines: Lines, carried: Lines, path: seq<string>, at: nat, tokens: nat)
    requires at >= 1
    ensures PieceOk(md, lines, Piece(Chunk(carried, path, at, at, tokens), |carried|, []))
  {
    assert carried[|carried|..] == [];
  }

  lemma OriginsOfOneMore(pieces: seq<Piece>, p: Piece)
    ensures AllOrigins(pieces + [p]) == AllOrigins(pieces) + p.origins
  {
    assert (pieces + [p])[..|pieces|] == pieces;
  }

  // ---------- the helpers of the chunker ----------

  function LineCosts(md: Markdown, lines: Lines): nat {
    if lines == [] then 0 else LineCosts(md, lines[..|lines| - 1]) + md.estimate([lines[|lines| - 1]]) + 1
  }

  datatype Run = Run(lines: Lines, start: nat, end: nat)

  function RunsLength(runs: seq<Run>): nat {
    if runs == [] then 0 else RunsLength(runs[..|runs| - 1]) + |runs[|runs| - 1].lines|
  }

  // The k-th run is the lines of the paragraph that follow the runs before it, with their line numbers.
  predicate CutAt(runs: seq<Run>, k: nat, paragraph: Lines, start: nat) {
    k < |runs| && runs[k].lines != []
    && var at := RunsLength(runs[..k]);
       && at + |runs[k].lines| <= |paragraph|
       && runs[k].lines == paragraph[at..at + |runs[k].lines|]
       && runs[k].start == start + at && runs[k].end == start + at + |runs[k].lines| - 1
  }

  // The runs are the lines of the paragraph, cut at some places.
  ghost predicate CutOf(runs: seq<Run>, paragraph: Lines, start: nat) {
    forall k: nat :: k < |runs| ==> CutAt(runs, k, paragraph, start)
  }

  lemma CutOneMore(runs: seq<Run>, paragraph: Lines, start: nat, run: Run)
    requires CutOf(runs, paragraph, start) && run.lines != []
    requires var at := RunsLength(runs);
      at + |run.lines| <= |paragraph| && run.lines == paragraph[at..at + |run.lines|]
      && run.start == start + at && run.end == start + at + |run.lines| - 1
    ensures CutOf(runs + [run], paragraph, start)
    ensures RunsLength(runs + [run]) == RunsLength(runs) + |run.lines|
  {
    hide RunsLength;
    var more := runs + [run];
    assert more[..|runs|] == runs;
    RunsLengthAfter(runs, run);
    forall k: nat | k < |more|
      ensures CutAt(more, k, paragraph, start)
    {
      if k < |runs| {
        assert CutAt(runs, k, paragraph, start);
        assert more[..k] == runs[..k] && more[k] == runs[k];
      }
    }
  }

  lemma RunsLengthAfter(runs: seq<Run>, run: Run)
    ensures RunsLength(runs + [run]) == RunsLength(runs) + |run.lines|
  {
    assert (runs + [run])[..|runs|] == runs;
  }

  predicate RunsFit(md: Markdown, runs: seq<Run>, maxTokens: int) {
    forall k :: 0 <= k < |runs| ==> |runs[k].lines| == 1 || LineCosts(md, runs[k].lines) <= maxTokens
  }

  // The first line of a run would not have fitted behind the run before it.
  predicate Overruns(md: Markdown, run: Run, line: string, maxTokens: int) {
    LineCosts(md, run.lines) + md.estimate([line]) + 1 > maxTokens
  }

  predicate RunsTight(md: Markdown, runs: seq<Run>, maxTokens: int) {
    forall k :: 0 < k < |runs| ==> runs[k].lines != [] && Overruns(md, runs[k - 1], runs[k].lines[0], maxTokens)
  }

  lemma OverrunsIs(md: Markdown, run: Run, line: string, maxTokens: int)
    ensures Overruns(md, run, line, maxTokens) <==> LineCosts(md, run.lines) + md.estimate([line]) + 1 > maxTokens
  {}

  lemma RunsTightOneMore(md: Markdown, runs: seq<Run>, run: Run, maxTokens: int)
    requires RunsTight(md, runs, maxTokens) && run.lines != []
    requires runs != [] ==> Overruns(md, runs[|runs| - 1], run.lines[0], maxTokens)
    ensures RunsTight(md, runs + [run], maxTokens)
  {
    hide Overruns;
  }

  lemma LineCostsAfter(md: Markdown, lines: Lines, line: string)
    ensures LineCosts(md, lines + [line]) == LineCosts(md, lines) + md.estimate([line]) + 1
  {
    assert (lines + [line])[..|lines|] == lines;
  }

  lemma RunsFitOneMore(md: Markdown, runs: seq<Run>, run: Run, maxTokens: int)
    requires RunsFit(md, runs, maxTokens) && (|run.lines| == 1 || LineCosts(md, run.lines) <= maxTokens)
    ensures RunsFit(md, runs + [run], maxTokens)
  {
    hide LineCosts;
  }

  // The first i lines of the paragraph are in the runs and, behind them, in the buffer.
  ghost predicate Splitting(
    md: Markdown, paragraph: Lines, maxTokens: int, start: nat, runs: seq<Run>, buf: Lines, i: nat)
  {
    CutOf(runs, paragraph, start) && RunsFit(md, runs, maxTokens)
    && RunsLength(runs) + |buf| == i <= |paragraph| && buf == paragraph[i - |buf|..i]
    && (|buf| <= 1 || LineCosts(md, buf) <= maxTokens)
    && RunsTight(md, runs, maxTokens)
    && (runs != [] && buf != [] ==> Overruns(md, runs[|runs| - 1], buf[0], maxTokens))
  }

  lemma SplitFlush(md: Markdown, paragraph: Lines, maxTokens: int, start: nat, runs: seq<Run>, buf: Lines, i: nat)
    requires Splitting(md, paragraph, maxTokens, start, runs, buf, i) && buf != []
    ensures Splitting(md, paragraph, maxTokens, start, runs + [Run(buf, start + i - |buf|, start + i - 1)], [], i)
  {
    hide CutOf, RunsLength, RunsFit, LineCosts, RunsTight, Overruns;
    var run := Run(buf, start + i - |buf|, start + i - 1);
    CutOneMore(runs, paragraph, start, run);
    RunsFitOneMore(md, runs, run, maxTokens);
    RunsTightOneMore(md, runs, run, maxTokens);
  }

  lemma SplitGrow(md: Markdown, paragraph: Lines, maxTokens: int, start: nat, runs: seq<Run>, buf: Lines, i: nat)
    requires Splitting(md, paragraph, maxTokens, start, runs, buf, i) && i < |paragraph|
    requires buf == [] || LineCosts(md, buf) + md.estimate([paragraph[i]]) + 1 <= maxTokens
    requires buf == [] && runs != [] ==> Overruns(md, runs[|runs| - 1], paragraph[i], maxTokens)
    ensures Splitting(md, paragraph, maxTokens, start, runs, buf + [paragraph[i]], i + 1)
  {
    hide CutOf, RunsLength, RunsFit, LineCosts, RunsTight, Overruns;
    LineCostsAfter(md, buf, paragraph[i]);
    assert paragraph[i - |buf|..i] + [paragraph[i]] == paragraph[i - |buf|..i + 1];
    assert (buf + [paragraph[i]])[0] == if buf == [] then paragraph[i] else buf[0];
  }

  // _split_paragraph_by_lines: a run is one line or stays within the bound.
  method SplitParagraphByLines(md: Markdown, paragraph: Lines, maxTokens: int, startLine: nat) returns (runs: seq<Run>)
    requires startLine >= 1
    ensures CutOf(runs, paragraph, startLine) && RunsLength(runs) == |paragraph|
    ensures RunsFit(md, runs, maxTokens) && RunsTight(md, runs, maxTokens)
  {
    runs := [];
    var buf: Lines := [];
    var bufTokens := 0;
    var bufStart := startLine;
    NoLineCosts(md);
    SplitStart(md, paragraph, maxTokens, startLine);
    hide *;
    for i := 0 to |paragraph|
      invariant Splitting(md, paragraph, maxTokens, startLine, runs, buf, i)
      invariant bufTokens == LineCosts(md, buf) && bufStart == startLine + i - |buf|
      invariant buf == [] ==> runs == []
    {
      var line := paragraph[i];
      var cost := md.estimate([line]) + 1;
      if buf != [] && bufTokens + cost > maxTokens {
        SplitFlush(md, paragraph, maxTokens, startLine, runs, buf, i);
        OverrunsIs(md, Run(buf, bufStart, startLine + i - 1), line, maxTokens);
        runs := runs + [Run(buf, bufStart, startLine + i - 1)];
        buf, bufTokens, bufStart := [], 0, startLine + i;
        NoLineCosts(md);
      }
      SplitGrow(md, paragraph, maxTokens, startLine, runs, buf, i);
      LineCostsAfter(md, buf, line);
      buf := buf + [line];
      bufTokens := bufTokens + cost;
    }
    if buf != [] {
      SplitFlush(md, paragraph, maxTokens, startLine, runs, buf, |paragraph|);
      runs := runs + [Run(buf, bufStart, startLine + |paragraph| - 1)];
    }
    SplitEnd(md, paragraph, maxTokens, startLine, runs);
  }

  lemma SplitStart(md: Markdown, paragraph: Lines, maxTokens: int, start: nat)
    ensures Splitting(md, paragraph, maxTokens, start, [], [], 0)
  {}

  lemma SplitEnd(md: Markdown, paragraph: Lines, maxTokens: int, start: nat, runs: seq<Run>)
    requires Splitting(md, paragraph, maxTokens, start, runs, [], |paragraph|)
    ensures CutOf(runs, paragraph, start) && RunsLength(runs) == |paragraph|
    ensures RunsFit(md, runs, maxTokens) && RunsTight(md, runs, maxTokens)
  {}

  lemma NoLineCosts(md: Markdown)
    ensures LineCosts(md, []) == 0
  {}

  // As many last lines as the target pays for, but at least one.
  predicate IsOverlap(md: Markdown, carried: Lines, text: Lines, target: int) {
    carried != [] && IsSuffix(carried, text)
    && (|carried| == 1 || LineCosts(md, carried) <= target)
    && (|carried| == |text| || LineCosts(md, text[|text| - |carried| - 1..]) > target)
  }

  lemma {:induction false} LineCostsOfFront(md: Markdown, line: string, lines: Lines)
    ensures LineCosts(md, [line] + lines) == md.estimate([line]) + 1 + LineCosts(md, lines)
  {
    if lines == [] {
      assert [line] + lines == [] + [line];
      LineCostsAfter(md, [], line);
    } else {
      var last := |lines| - 1;
      LineCostsOfFront(md, line, lines[..last]);
      assert ([line] + lines)[..last + 1] == [line] + lines[..last];
    }
  }

  // _carry_overlap; [""] stands for the empty string.
  method CarryOverlap(md: Markdown, text: Lines, targetTokens: int) returns (carried: Lines)
    requires text != []
    ensures if targetTokens <= 0 || text == [""] then carried == [""] else IsOverlap(md, carried, text, targetTokens)
  {
    hide LineCosts;
    if targetTokens <= 0 || text == [""] {
      return [""];
    }
    carried := [];
    var tokens := 0;
    NoLineCosts(md);
    while |carried| < |text|
      invariant IsSuffix(carried, text) && tokens == LineCosts(md, carried)
      invariant |carried| <= 1 || tokens <= targetTokens
      decreases |text| - |carried|
    {
      var line := text[|text| - |carried| - 1];
      var cost := md.estimate([line]) + 1;
      LineCostsOfFront(md, line, carried);
      assert text[|text| - |carried| - 1..] == [line] + carried;
      if tokens + cost > targetTokens && carried != [] {
        break;
      }
      carried := [line] + carried;
      tokens := tokens + cost;
    }
  }

  class Builder {
    var headingPath: seq<string>
    var parts: seq<Lines>
    var tokens: nat
    var startLine: nat
    var endLine: nat

    constructor ()
      ensures headingPath == [] && parts == [] && tokens == 0 && startLine == endLine == 1
    {
      headingPath, parts, tokens, startLine, endLine := [], [], 0, 1, 1;
    }

    method Reset(headingPath: seq<string>, startLine: nat)
      modifies this
      ensures this.headingPath == headingPath && parts == [] && tokens == 0 && this.startLine == endLine == startLine
    {
      this.headingPath, parts, tokens := headingPath, [], 0;
      this.startLine, endLine := startLine, startLine;
    }

    method Add(text: Lines, endLine: nat, tokenCost: nat)
      modifies this`parts, this`tokens, this`endLine
      ensures parts == old(parts) + [text] && tokens == old(tokens) + tokenCost && this.endLine == endLine
    {
      parts, tokens, this.endLine := parts + [text], tokens + tokenCost, endLine;
    }

    function Build(): Chunk
      reads this
    {
      Chunk(JoinParts(parts), headingPath, startLine, endLine, tokens)
    }
  }

  // ---------- the state between two steps of the chunker ----------

  // The pieces already out, and the one being built.
  datatype Progress = Progress(pieces: seq<Piece>, pending: Piece)

  function Last(pieces: seq<Piece>): Piece
    requires pieces != []
  {
    pieces[|pieces| - 1]
  }

  /**
   After the first i lines: chunks are out, now is what the builder would build and empty whether it has
   no parts; what is out and pending covers exactly the inked lines so far.
   */
  ghost predicate Ready(md: Markdown, lines: Lines, i: nat, chunks: seq<Chunk>, now: Chunk, empty: bool, st: Progress) {
    i <= |lines|
    && PiecesOf(chunks, st.pieces) && st.pending.chunk == now
    && (empty <==> now.content == []) && (empty ==> st.pending.drop == 0 && st.pending.origins == [])
    && Chained(md, lines, st.pieces + [st.pending])
    && AllOrigins(st.pieces) + st.pending.origins == InkedLines(md, lines, i)
    && now.headingPath == StackAfter(md, lines, i) && now.endLine <= i + 1
  }

  lemma ChainedParts(md: Markdown, lines: Lines, pieces: seq<Piece>, p: Piece)
    ensures Chained(md, lines, pieces + [p]) <==>
      && Chained(md, lines, pieces) && PieceOk(md, lines, p)
      && (if pieces == [] then p.drop == 0 else Follows(Last(pieces), p))
  {
    hide PieceOk, Follows;
    var more := pieces + [p];
    assert more[|pieces|] == p;
    assert forall i :: 0 <= i < |pieces| ==> more[i] == pieces[i];
    if Chained(md, lines, more) {
      assert forall i :: 0 <= i < |pieces| ==> PieceOk(md, lines, more[i]);
      assert forall i :: 0 < i < |pieces| ==> Follows(more[i - 1], more[i]);
      assert pieces != [] ==> Follows(more[|pieces| - 1], more[|pieces|]);
    }
  }

  // The pending piece goes out and another one, without fresh lines, takes its place.
  lemma PushPending(md: Markdown, lines: Lines, i: nat, chunks: seq<Chunk>, now: Chunk, st: Progress, next: Piece)
    requires Ready(md, lines, i, chunks, now, false, st)
    requires PieceOk(md, lines, next) && Follows(st.pending, next) && next.origins == []
    requires next.chunk.content == [] ==> next.drop == 0
    requires next.chunk.headingPath == now.headingPath && next.chunk.endLine <= i + 1
    ensures Ready(md, lines, i, chunks + [now], next.chunk, next.chunk.content == [],
                  Progress(st.pieces + [st.pending], next))
  {
    hide PieceOk, Follows, Chained, InkedLines, StackAfter;
    ChainedParts(md, lines, st.pieces + [st.pending], next);
    OriginsOfOneMore(st.pieces, st.pending);
  }

  lemma FollowsCarried(prev: Piece, carried: Lines, path: seq<string>, tokens: nat, at: nat)
    requires prev.chunk.endLine <= at && (carried == [] || IsSuffix(carried, prev.chunk.content))
    ensures Follows(prev, Piece(Chunk(carried, path, at, at, tokens), |carried|, []))
  {
    assert carried[..|carried|] == carried;
  }

  lemma RunFollows(prev: Piece, p: Piece, empty: bool, first: nat, part: Lines, cost: nat)
    requires Follows(prev, p) && first >= 1 && part != [] && (empty ==> p.drop == 0)
    ensures Follows(prev, WithRun(p, empty, first, part, cost))
  {
    if !empty {
      assert (p.chunk.content + [""] + part)[..p.drop] == p.chunk.content[..p.drop];
    } else {
      assert part[..0] == p.chunk.content[..0];
    }
  }

  lemma AddRunPieces(
    md: Markdown, lines: Lines, pieces: seq<Piece>, p: Piece, empty: bool, first: nat, part: Lines, cost: nat)
    requires Lawful(md) && Chained(md, lines, pieces + [p]) && part != []
    requires first >= 1 && PlainRun(md, lines, first, part)
    requires empty ==> p.chunk.content == [] && p.origins == [] && p.drop == 0
    requires p.chunk.endLine <= first && StackAfter(md, lines, first - 1) == p.chunk.headingPath
    ensures Chained(md, lines, pieces + [WithRun(p, empty, first, part, cost)])
  {
    hide PieceOk, Follows, Chained, InkedLines, StackAfter, PlainRun, Lawful;
    ChainedParts(md, lines, pieces, p);
    RunKeepsPiece(md, lines, p, empty, first, part, cost);
    if pieces != [] {
      RunFollows(Last(pieces), p, empty, first, part, cost);
    }
    ChainedParts(md, lines, pieces, WithRun(p, empty, first, part, cost));
  }

  // A plain run goes into the builder.
  lemma AddRun(
    md: Markdown, lines: Lines, i: nat, chunks: seq<Chunk>, now: Chunk, empty: bool, st: Progress,
    part: Lines, cost: nat)
    requires Lawful(md) && Ready(md, lines, i, chunks, now, empty, st)
    requires part != [] && i + |part| <= |lines| && PlainRun(md, lines, i + 1, part)
    ensures var q := WithRun(st.pending, empty, i + 1, part, cost);
      Ready(md, lines, i + |part|, chunks, q.chunk, false, Progress(st.pieces, q))
  {
    hide PieceOk, Follows, Chained, InkedLines, StackAfter, PlainRun, Lawful;
    AddRunPieces(md, lines, st.pieces, st.pending, empty, i + 1, part, cost);
    InkedOverRun(md, lines, i + 1, part, |part|);
    StackOverRun(md, lines, i + 1, part, |part|);
    assert (AllOrigins(st.pieces) + st.pending.origins) + Numbers(i + 1, |part|)
        == AllOrigins(st.pieces) + (st.pending.origins + Numbers(i + 1, |part|));
  }

  // A heading closes what is pending, if anything, and starts a piece of its own.
  lemma StartSection(
    md: Markdown, lines: Lines, i: nat, chunks: seq<Chunk>, now: Chunk, empty: bool, st: Progress, tokens: nat)
    requires Lawful(md) && Ready(md, lines, i, chunks, now, empty, st)
    requires i < |lines| && md.heading(lines[i]).Some?
    ensures var h := md.heading(lines[i]).value;
      h.level >= 1 && var chunk := Chunk([HeadLine(h)], UpdatePath(now.headingPath, h), i + 1, i + 1, tokens);
      Ready(md, lines, i + 1, if empty then chunks else chunks + [now], chunk, false,
            Progress(if empty then st.pieces else st.pieces + [st.pending], Piece(chunk, 0, [i])))
  {
    hide PieceOk, Follows, Chained, InkedLines;
    var h := md.heading(lines[i]).value;
    HeadingPiece(md, lines, i, tokens);
    var next := Piece(Chunk([HeadLine(h)], UpdatePath(now.headingPath, h), i + 1, i + 1, tokens), 0, [i]);
    ChainedParts(md, lines, st.pieces, st.pending);
    PieceSpans(md, lines, st.pending);
    FreshFollows(st.pending, next);
    if st.pieces != [] {
      FollowsForward(Last(st.pieces), st.pending);
      FreshFollows(Last(st.pieces), next);
    }
    HeadingIsInked(md, lines, i);
    var pieces := if empty then st.pieces else st.pieces + [st.pending];
    ChainedParts(md, lines, pieces, next);
    OriginsOfOneMore(st.pieces, st.pending);
  }

  lemma FreshFollows(prev: Piece, next: Piece)
    requires prev.chunk.endLine <= next.chunk.startLine && next.drop == 0
    ensures Follows(prev, next)
  {
    assert next.chunk.content[..0] == [];
  }

  lemma FollowsForward(prev: Piece, next: Piece)
    requires Follows(prev, next)
    ensures prev.chunk.endLine <= next.chunk.startLine
  {}

  lemma HeadingIsInked(md: Markdown, lines: Lines, i: nat)
    requires Lawful(md) && i < |lines| && md.heading(lines[i]).Some?
    ensures InkedLines(md, lines, i + 1) == InkedLines(md, lines, i) + [i]
  {}

  lemma PieceSpans(md: Markdown, lines: Lines, p: Piece)
    requires PieceOk(md, lines, p)
    ensures p.chunk.startLine <= p.chunk.endLine
  {}

  lemma SkipBlank(md: Markdown, lines: Lines, i: nat, chunks: seq<Chunk>, now: Chunk, empty: bool, st: Progress)
    requires Lawful(md) && Ready(md, lines, i, chunks, now, empty, st)
    requires i < |lines| && md.blank(lines[i])
    ensures Ready(md, lines, i + 1, chunks, now, empty, st)
  {
    hide Chained, PiecesOf;
  }

  // ---------- how much goes into a chunk ----------

  function Cost(md: Markdown, parts: seq<Lines>): nat {
    if parts == [] then 0 else Cost(md, parts[..|parts| - 1]) + md.estimate(parts[|parts| - 1])
  }

  /**
   The parts cost what is counted; and they stay within the bound, or there is only one of them besides
   what was carried over.
   */
  predicate Fits(md: Markdown, maxTokens: int, parts: seq<Lines>, tokens: nat, drop: nat) {
    tokens == Cost(md, parts)
    && (tokens <= maxTokens || |parts| <= 1 || (|parts| == 2 && drop > 0 && |parts[0]| == drop))
  }

  ghost predicate Packed(md: Markdown, maxTokens: int, p: Piece) {
    exists parts :: p.chunk.content == JoinParts(parts) && Fits(md, maxTokens, parts, p.chunk.tokens, p.drop)
  }

  // What is out is packed, and so is what the builder holds.
  ghost predicate Packing(md: Markdown, maxTokens: int, parts: seq<Lines>, tokens: nat, st: Progress) {
    (forall p :: p in st.pieces ==> Packed(md, maxTokens, p)) && Fits(md, maxTokens, parts, tokens, st.pending.drop)
  }

  lemma PackPending(
    md: Markdown, maxTokens: int, parts: seq<Lines>, tokens: nat, st: Progress,
    parts': seq<Lines>, tokens': nat, next: Piece)
    requires Packing(md, maxTokens, parts, tokens, st)
    requires st.pending.chunk.content == JoinParts(parts) && st.pending.chunk.tokens == tokens
    requires |parts'| <= 1 && tokens' == Cost(md, parts')
    ensures Packing(md, maxTokens, parts', tokens', Progress(st.pieces + [st.pending], next))
  {
    assert Packed(md, maxTokens, st.pending);
  }

  lemma CostOneMore(md: Markdown, parts: seq<Lines>, part: Lines)
    ensures Cost(md, parts + [part]) == Cost(md, parts) + md.estimate(part)
    ensures Cost(md, []) == 0
  {
    assert (parts + [part])[..|parts|] == parts;
  }

  // ---------- the chunker ----------

  // The closure of the same name: what is pending goes out, and its last lines are carried into a new builder.
  method FlushWithOverlap(
    md: Markdown, builder: Builder, chunks: seq<Chunk>, stack: seq<string>, overlapTarget: int,
    ghost lines: Lines, ghost i: nat, ghost st: Progress, ghost maxTokens: int)
    returns (chunks': seq<Chunk>, ghost st': Progress)
    requires Ready(md, lines, i, chunks, builder.Build(), builder.parts == [], st) && stack == builder.headingPath
    requires Packing(md, maxTokens, builder.parts, builder.tokens, st)
    modifies builder
    ensures Ready(md, lines, i, chunks', builder.Build(), builder.parts == [], st') && stack == builder.headingPath
    ensures Packing(md, maxTokens, builder.parts, builder.tokens, st')
    ensures |builder.parts| <= 1 && (builder.parts != [] ==> |builder.parts[0]| == st'.pending.drop > 0)
    ensures if old(builder.parts) == [] then st' == st
            else st'.pieces == st.pieces + [st.pending] && st'.pending.origins == []
    ensures Joints(md, lines, maxTokens, overlapTarget, st.pieces + [st.pending]) ==>
            Joints(md, lines, maxTokens, overlapTarget, st'.pieces + [st'.pending])
  {
    chunks', st' := chunks, st;
    if builder.parts == [] {
      return;
    }
    hide Ready, Packing, JoinParts, Joints, IsOverlap, Fits, Cost;
    ghost var parts, tokens := builder.parts, builder.tokens;
    var chunk := builder.Build();
    chunks' := chunks + [chunk];
    PendingIsNow(md, lines, i, chunks, chunk, false, st);
    var tail := CarryOverlap(md, chunk.content, overlapTarget);
    var nextStart := builder.endLine;
    builder.Reset(stack, nextStart);
    if tail != [""] {
      builder.Add(tail, nextStart, md.estimate(tail));
    }
    JoinFew(tail);
    assert [] + [tail] == [tail];
    ghost var next := Piece(builder.Build(), |builder.Build().content|, []);
    st' := Progress(st.pieces + [st.pending], next);
    Flushed(md, lines, i, chunks, chunk, st, maxTokens, overlapTarget, parts, tokens, tail, next);
  }

  // The piece that a flush leaves pending: the tail, if any.
  function CarriedNext(md: Markdown, chunk: Chunk, tail: Lines): Piece {
    var content := if tail == [""] then [] else tail;
    var cost := if tail == [""] then 0 else md.estimate(tail);
    Piece(Chunk(content, chunk.headingPath, chunk.endLine, chunk.endLine, cost), |content|, [])
  }

  predicate IsTail(md: Markdown, tail: Lines, content: Lines, target: int) {
    if target <= 0 || content == [""] then tail == [""] else IsOverlap(md, tail, content, target)
  }

  // What a flush does to the pieces: the pending one goes out, and its tail, if any, is all that the next one holds.
  lemma Flushed(
    md: Markdown, lines: Lines, i: nat, chunks: seq<Chunk>, chunk: Chunk, st: Progress, maxTokens: int, target: int,
    parts: seq<Lines>, tokens: nat, tail: Lines, next: Piece)
    requires Ready(md, lines, i, chunks, chunk, false, st) && Packing(md, maxTokens, parts, tokens, st)
    requires chunk.content == JoinParts(parts) && chunk.tokens == tokens && chunk.content != []
    requires IsTail(md, tail, chunk.content, target) && next == CarriedNext(md, chunk, tail)
    ensures Ready(md, lines, i, chunks + [chunk], next.chunk, tail == [""], Progress(st.pieces + [st.pending], next))
    ensures Packing(md, maxTokens, if tail == [""] then [] else [tail], next.chunk.tokens,
                    Progress(st.pieces + [st.pending], next))
    ensures Joints(md, lines, maxTokens, target, st.pieces + [st.pending]) ==>
            Joints(md, lines, maxTokens, target, st.pieces + [st.pending] + [next])
  {
    hide Ready, Packing, JoinParts, Joints, IsTail, CarriedNext;
    PendingIsNow(md, lines, i, chunks, chunk, false, st);
    FlushedReady(md, lines, i, chunks, chunk, st, target, tail);
    FlushedPacking(md, maxTokens, parts, tokens, st, chunk, tail);
    FlushedJoints(md, lines, maxTokens, target, st, chunk, tail);
  }

  lemma FlushedReady(
    md: Markdown, lines: Lines, i: nat, chunks: seq<Chunk>, chunk: Chunk, st: Progress, target: int, tail: Lines)
    requires Ready(md, lines, i, chunks, chunk, false, st) && IsTail(md, tail, chunk.content, target)
    ensures var next := CarriedNext(md, chunk, tail);
      Ready(md, lines, i, chunks + [chunk], next.chunk, tail == [""], Progress(st.pieces + [st.pending], next))
  {
    hide Ready, PieceOk, Follows, IsSuffix, IsOverlap;
    var next := CarriedNext(md, chunk, tail);
    OverlapIsSuffix(md, tail, chunk.content, target);
    PendingIsNow(md, lines, i, chunks, chunk, false, st);
    PendingSpans(md, lines, i, chunks, chunk, st);
    FollowsCarried(st.pending, next.chunk.content, chunk.headingPath, next.chunk.tokens, chunk.endLine);
    CarriedPiece(md, lines, next.chunk.content, chunk.headingPath, chunk.endLine, next.chunk.tokens);
    PushPending(md, lines, i, chunks, chunk, st, next);
  }

  lemma FlushedPacking(
    md: Markdown, maxTokens: int, parts: seq<Lines>, tokens: nat, st: Progress, chunk: Chunk, tail: Lines)
    requires Packing(md, maxTokens, parts, tokens, st) && st.pending.chunk == chunk
    requires chunk.content == JoinParts(parts) && chunk.tokens == tokens
    ensures var next := CarriedNext(md, chunk, tail);
      Packing(md, maxTokens, if tail == [""] then [] else [tail], next.chunk.tokens,
              Progress(st.pieces + [st.pending], next))
  {
    hide Packing, JoinParts, Cost;
    CostOneMore(md, [], tail);
    assert [] + [tail] == [tail];
    var next := CarriedNext(md, chunk, tail);
    PackPending(md, maxTokens, parts, tokens, st, if tail == [""] then [] else [tail], next.chunk.tokens, next);
  }

  lemma FlushedJoints(
    md: Markdown, lines: Lines, maxTokens: int, target: int, st: Progress, chunk: Chunk, tail: Lines)
    requires st.pending.chunk == chunk && chunk.content != [] && IsTail(md, tail, chunk.content, target)
    ensures Joints(md, lines, maxTokens, target, st.pieces + [st.pending]) ==>
            Joints(md, lines, maxTokens, target, st.pieces + [st.pending] + [CarriedNext(md, chunk, tail)])
  {
    hide Joints, IsOverlap;
    if Joints(md, lines, maxTokens, target, st.pieces + [st.pending]) {
      TailIsCarried(md, tail, chunk.content, target);
      OverlapIsSuffix(md, tail, chunk.content, target);
      JointCarried(md, lines, maxTokens, target, st.pieces + [st.pending], CarriedNext(md, chunk, tail));
    }
  }

  lemma OverlapIsSuffix(md: Markdown, tail: Lines, content: Lines, target: int)
    requires IsTail(md, tail, content, target)
    ensures tail != [] && (tail == [""] || IsSuffix(tail, content))
  {}

  lemma TailIsCarried(md: Markdown, tail: Lines, content: Lines, target: int)
    requires content != []
    requires IsTail(md, tail, content, target)
    ensures if tail != [""] then target > 0 && IsOverlap(md, tail, content, target)
            else target <= 0 || content[|content| - 1] == ""
  {}

  // The builder and its piece take in the same run.
  lemma RunBuilt(p: Piece, parts: seq<Lines>, part: Lines, first: nat, cost: nat)
    requires first >= 1 && part != [] && p.chunk.content == JoinParts(parts)
    ensures var q := WithRun(p, parts == [], first, part, cost);
      && q.chunk == Chunk(JoinParts(parts + [part]), p.chunk.headingPath, p.chunk.startLine, first + |part| - 1,
                          p.chunk.tokens + cost)
      && q.drop == p.drop && q.origins == p.origins + Numbers(first, |part|)
  {
    JoinOnePart(parts, part);
  }

  // A part more in the builder: it fits, or it stands alone or with what was carried over.
  lemma PackPart(
    md: Markdown, maxTokens: int, parts: seq<Lines>, tokens: nat, st: Progress, part: Lines, q: Piece)
    requires Packing(md, maxTokens, parts, tokens, st) && q.drop == st.pending.drop
    requires tokens + md.estimate(part) <= maxTokens || parts == [] || (|parts| == 1 && |parts[0]| == q.drop > 0)
    ensures Packing(md, maxTokens, parts + [part], tokens + md.estimate(part), Progress(st.pieces, q))
  {
    hide Packed;
    CostOneMore(md, parts, part);
  }

  // ---------- why one chunk ends and the next begins ----------

  // The lines from a to b are a paragraph, or the rest of one.
  ghost predicate IsParagraph(md: Markdown, lines: Lines, a: nat, b: nat) {
    a < b <= |lines| && PlainRun(md, lines, a + 1, lines[a..b])
    && (b == |lines| || md.blank(lines[b]) || md.heading(lines[b]).Some?)
  }

  ghost predicate InOversize(md: Markdown, lines: Lines, maxTokens: int, k: nat) {
    exists a: nat, b: nat :: a <= k < b && IsParagraph(md, lines, a, b) && md.estimate(lines[a..b]) > maxTokens
  }

  // The paragraph that begins at k does not fit behind that many tokens.
  ghost predicate DoesNotFit(md: Markdown, lines: Lines, maxTokens: int, tokens: nat, k: nat) {
    exists b: nat :: IsParagraph(md, lines, k, b) && tokens + md.estimate(lines[k..b]) > maxTokens
  }

  // A heading or a run of an oversize paragraph.
  ghost predicate StartsAnew(md: Markdown, lines: Lines, maxTokens: int, next: Piece) {
    next.origins != [] && next.origins[0] < |lines|
    && (md.heading(lines[next.origins[0]]).Some? || InOversize(md, lines, maxTokens, next.origins[0]))
  }

  // Nothing new follows, or something that stands by itself, or prev is full, or what follows would not have fitted.
  ghost predicate Cause(md: Markdown, lines: Lines, maxTokens: int, prev: Piece, next: Piece) {
    next.origins == [] || StartsAnew(md, lines, maxTokens, next) || prev.chunk.tokens >= maxTokens
    || DoesNotFit(md, lines, maxTokens, prev.chunk.tokens, next.origins[0])
  }

  // What is carried over is as much as the target pays for; nothing is carried to what stands by itself.
  ghost predicate Carries(md: Markdown, lines: Lines, maxTokens: int, target: int, prev: Piece, next: Piece) {
    if next.drop > 0 then
      target > 0 && next.drop <= |next.chunk.content|
      && IsOverlap(md, next.chunk.content[..next.drop], prev.chunk.content, target)
    else
      target <= 0 || prev.chunk.content == [] || prev.chunk.content[|prev.chunk.content| - 1] == ""
      || StartsAnew(md, lines, maxTokens, next)
  }

  ghost predicate Joint(md: Markdown, lines: Lines, maxTokens: int, target: int, prev: Piece, next: Piece) {
    Cause(md, lines, maxTokens, prev, next) && Carries(md, lines, maxTokens, target, prev, next)
  }

  ghost predicate Joints(md: Markdown, lines: Lines, maxTokens: int, target: int, pieces: seq<Piece>) {
    forall i :: 0 < i < |pieces| ==> Joint(md, lines, maxTokens, target, pieces[i - 1], pieces[i])
  }

  // Between two steps: a piece with nothing new in it follows a full one.
  ghost predicate Jointed(md: Markdown, lines: Lines, maxTokens: int, target: int, st: Progress) {
    Joints(md, lines, maxTokens, target, st.pieces + [st.pending])
    && (st.pending.origins == [] && st.pieces != [] ==> Last(st.pieces).chunk.tokens >= maxTokens)
  }

  lemma JointsOneMore(md: Markdown, lines: Lines, maxTokens: int, target: int, pieces: seq<Piece>, next: Piece)
    ensures Joints(md, lines, maxTokens, target, pieces + [next]) <==>
            && Joints(md, lines, maxTokens, target, pieces)
            && (pieces != [] ==> Joint(md, lines, maxTokens, target, Last(pieces), next))
  {
    hide Joint;
    var more := pieces + [next];
    assert forall i {:trigger more[i]} :: 0 < i < |pieces| ==> more[i] == pieces[i] && more[i - 1] == pieces[i - 1];
    if pieces != [] {
      assert more[|pieces|] == next && more[|pieces| - 1] == Last(pieces);
    }
    if Joints(md, lines, maxTokens, target, more) {
      forall i | 0 < i < |pieces| ensures Joint(md, lines, maxTokens, target, pieces[i - 1], pieces[i]) {
        assert Joint(md, lines, maxTokens, target, more[i - 1], more[i]);
      }
    }
  }

  // What stands by itself may follow anything.
  lemma JointAnew(md: Markdown, lines: Lines, maxTokens: int, target: int, pieces: seq<Piece>, next: Piece)
    requires Joints(md, lines, maxTokens, target, pieces)
    requires StartsAnew(md, lines, maxTokens, next) && next.drop == 0
    ensures Joints(md, lines, maxTokens, target, pieces + [next])
    ensures Jointed(md, lines, maxTokens, target, Progress(pieces, next))
  {
    JointsOneMore(md, lines, maxTokens, target, pieces, next);
  }

  lemma JointCarried(md: Markdown, lines: Lines, maxTokens: int, target: int, pieces: seq<Piece>, next: Piece)
    requires pieces != [] && Joints(md, lines, maxTokens, target, pieces) && next.origins == []
    requires next.drop == |next.chunk.content|
    requires var prev := Last(pieces).chunk.content;
      if next.drop > 0 then target > 0 && IsOverlap(md, next.chunk.content, prev, target)
      else target <= 0 || prev == [] || prev[|prev| - 1] == ""
    ensures Joints(md, lines, maxTokens, target, pieces + [next])
  {
    assert next.chunk.content[..next.drop] == next.chunk.content;
    JointsOneMore(md, lines, maxTokens, target, pieces, next);
  }

  // A run goes behind what the pending piece holds already.
  lemma JointGrows(
    md: Markdown, lines: Lines, maxTokens: int, target: int, st: Progress,
    empty: bool, first: nat, part: Lines, cost: nat)
    requires Joints(md, lines, maxTokens, target, st.pieces + [st.pending])
    requires first >= 1 && part != [] && st.pending.drop <= |st.pending.chunk.content|
    requires empty ==> st.pending.drop == 0 && st.pending.origins == []
    requires st.pending.origins == [] && st.pieces != [] ==>
      || Last(st.pieces).chunk.tokens >= maxTokens
      || DoesNotFit(md, lines, maxTokens, Last(st.pieces).chunk.tokens, first - 1)
    ensures Jointed(md, lines, maxTokens, target, Progress(st.pieces, WithRun(st.pending, empty, first, part, cost)))
  {
    hide IsOverlap, InOversize, DoesNotFit;
    var q := WithRun(st.pending, empty, first, part, cost);
    JointsOneMore(md, lines, maxTokens, target, st.pieces, st.pending);
    JointsOneMore(md, lines, maxTokens, target, st.pieces, q);
    assert Numbers(first, |part|)[0] == first - 1;
    assert st.pending.origins != [] ==> q.origins[0] == st.pending.origins[0];
    assert st.pending.origins == [] ==> q.origins[0] == first - 1;
    assert !empty ==> q.chunk.content[..q.drop] == st.pending.chunk.content[..q.drop];
  }

  lemma JoinFew(part: Lines)
    ensures JoinParts([]) == [] && JoinParts([part]) == part
  {}

  lemma PendingSpans(md: Markdown, lines: Lines, i: nat, chunks: seq<Chunk>, now: Chunk, st: Progress)
    requires Ready(md, lines, i, chunks, now, false, st)
    ensures 1 <= now.startLine <= now.endLine <= i + 1
  {
    ChainedParts(md, lines, st.pieces, st.pending);
  }

  // One run of an oversize paragraph, in a chunk of its own.
  method AddPiece(
    md: Markdown, builder: Builder, chunks: seq<Chunk>, stack: seq<string>, maxTokens: int, overlapTarget: int,
    run: Run, ghost lines: Lines, ghost at: nat, ghost st: Progress)
    returns (chunks': seq<Chunk>, ghost st': Progress)
    requires Lawful(md) && run.lines != [] && run.start == at + 1 && run.end == at + |run.lines|
    requires at + |run.lines| <= |lines| && PlainRun(md, lines, at + 1, run.lines)
    requires Ready(md, lines, at, chunks, builder.Build(), builder.parts == [], st) && stack == builder.headingPath
    requires Packing(md, maxTokens, builder.parts, builder.tokens, st)
    requires Joints(md, lines, maxTokens, overlapTarget, st.pieces + [st.pending])
             && InOversize(md, lines, maxTokens, at)
    modifies builder
    ensures Jointed(md, lines, maxTokens, overlapTarget, st')
    ensures Ready(md, lines, at + |run.lines|, chunks', builder.Build(), builder.parts == [], st')
    ensures stack == builder.headingPath
    ensures Packing(md, maxTokens, builder.parts, builder.tokens, st')
  {
    hide Ready, PlainRun, Lawful, Cost, Joints, InOversize, Jointed, StartsAnew, Packing, WithRun, JoinParts, Numbers;
    chunks', st' := chunks, st;
    JointsOneMore(md, lines, maxTokens, overlapTarget, st.pieces, st.pending);
    if builder.parts != [] {
      var pending := builder.Build();
      ghost var before := st';
      PendingIsNow(md, lines, at, chunks', pending, false, st');
      st' := DropBuilder(md, lines, at, chunks', pending, st');
      CostOneMore(md, [], []);
      PackPending(md, maxTokens, builder.parts, builder.tokens, before, [], 0, st'.pending);
      chunks' := chunks' + [pending];
      builder.Reset(stack, run.start);
      JoinFew([]);
    }
    ghost var empty, now := builder.parts == [], builder.Build();
    EmptyIsFresh(md, lines, at, chunks', now, empty, st');
    assert [] + Numbers(at + 1, |run.lines|) == Numbers(at + 1, |run.lines|);
    var cost := md.estimate(run.lines);
    PendingIsNow(md, lines, at, chunks', now, empty, st');
    RunBuilt(st'.pending, builder.parts, run.lines, at + 1, cost);
    PackPart(md, maxTokens, builder.parts, builder.tokens, st', run.lines,
             WithRun(st'.pending, empty, at + 1, run.lines, cost));
    builder.Add(run.lines, run.end, cost);
    AddRun(md, lines, at, chunks', now, empty, st', run.lines, cost);
    st' := Progress(st'.pieces, WithRun(st'.pending, empty, at + 1, run.lines, cost));
    RunStartsAnew(md, lines, maxTokens, st'.pending, at, |run.lines|);
    JointAnew(md, lines, maxTokens, overlapTarget, st'.pieces, st'.pending);
    JointedIs(md, lines, maxTokens, overlapTarget, st');
    ghost var grown := st';
    if builder.tokens >= maxTokens {
      chunks', st' := FlushWithOverlap(md, builder, chunks', stack, overlapTarget,
                                       lines, at + |run.lines|, st', maxTokens);
      PendingIsNow(md, lines, at + |run.lines|, chunks', builder.Build(), builder.parts == [], st');
      FullIsJointed(md, lines, maxTokens, overlapTarget, grown, st');
    }
  }

  lemma EmptyIsFresh(md: Markdown, lines: Lines, i: nat, chunks: seq<Chunk>, now: Chunk, empty: bool, st: Progress)
    requires Ready(md, lines, i, chunks, now, empty, st)
    ensures empty ==> st.pending.drop == 0 && st.pending.origins == []
    ensures st.pending.drop <= |st.pending.chunk.content|
  {
    ChainedParts(md, lines, st.pieces, st.pending);
  }

  lemma RunStartsAnew(md: Markdown, lines: Lines, maxTokens: int, p: Piece, at: nat, n: nat)
    requires n > 0 && at < |lines| && p.origins == Numbers(at + 1, n) && InOversize(md, lines, maxTokens, at)
    ensures StartsAnew(md, lines, maxTokens, p)
  {
    hide InOversize;
    assert Numbers(at + 1, n)[0] == at;
  }

  lemma JointedIs(md: Markdown, lines: Lines, maxTokens: int, target: int, st: Progress)
    requires Jointed(md, lines, maxTokens, target, st)
    ensures Joints(md, lines, maxTokens, target, st.pieces + [st.pending])
  {}

  lemma FullIsJointed(md: Markdown, lines: Lines, maxTokens: int, target: int, before: Progress, st: Progress)
    requires Joints(md, lines, maxTokens, target, st.pieces + [st.pending])
    requires st.pieces == before.pieces + [before.pending] && before.pending.chunk.tokens >= maxTokens
    ensures Jointed(md, lines, maxTokens, target, st)
  {}

  // An oversize paragraph: what is pending goes out first, then its runs follow one by one.
  method AddOversize(
    md: Markdown, builder: Builder, chunks: seq<Chunk>, stack: seq<string>, maxTokens: int, overlapTarget: int,
    paragraph: Lines, start: nat, ghost lines: Lines, ghost st: Progress)
    returns (chunks': seq<Chunk>, ghost st': Progress)
    requires Lawful(md) && start >= 1 && PlainRun(md, lines, start, paragraph)
    requires Ready(md, lines, start - 1, chunks, builder.Build(), builder.parts == [], st)
             && stack == builder.headingPath
    requires Packing(md, maxTokens, builder.parts, builder.tokens, st)
    requires Jointed(md, lines, maxTokens, overlapTarget, st) && paragraph != []
    requires forall k :: start - 1 <= k < start - 1 + |paragraph| ==> InOversize(md, lines, maxTokens, k)
    modifies builder
    ensures Jointed(md, lines, maxTokens, overlapTarget, st')
    ensures Ready(md, lines, start - 1 + |paragraph|, chunks', builder.Build(), builder.parts == [], st')
    ensures stack == builder.headingPath
    ensures Packing(md, maxTokens, builder.parts, builder.tokens, st')
  {
    hide Ready, CutOf, Lawful, Packing, Joints, Jointed, InOversize, RunsTight, RunsFit, JoinParts, Last;
    JointedIs(md, lines, maxTokens, overlapTarget, st);
    chunks', st' := FlushWithOverlap(md, builder, chunks, stack, overlapTarget, lines, start - 1, st, maxTokens);
    var runs := SplitParagraphByLines(md, paragraph, maxTokens, start);
    assert runs[..0] == [];
    ghost var at := 0;
    for r := 0 to |runs|
      invariant at == RunsLength(runs[..r]) <= |paragraph|
      invariant Ready(md, lines, start - 1 + at, chunks', builder.Build(), builder.parts == [], st')
      invariant stack == builder.headingPath
      invariant Packing(md, maxTokens, builder.parts, builder.tokens, st')
      invariant Joints(md, lines, maxTokens, overlapTarget, st'.pieces + [st'.pending])
      invariant r > 0 ==> Jointed(md, lines, maxTokens, overlapTarget, st')
    {
      CutIsRun(md, lines, runs, paragraph, start, r);
      chunks', st' := AddPiece(md, builder, chunks', stack, maxTokens, overlapTarget, runs[r],
                               lines, start - 1 + at, st');
      JointedIs(md, lines, maxTokens, overlapTarget, st');
      at := at + |runs[r].lines|;
    }
    assert runs[..|runs|] == runs;
  }

  lemma PendingIsNow(md: Markdown, lines: Lines, i: nat, chunks: seq<Chunk>, now: Chunk, empty: bool, st: Progress)
    requires Ready(md, lines, i, chunks, now, empty, st)
    ensures st.pending.chunk == now && (empty <==> now.content == [])
  {}

  lemma CutIsRun(md: Markdown, lines: Lines, runs: seq<Run>, paragraph: Lines, start: nat, r: nat)
    requires CutOf(runs, paragraph, start) && PlainRun(md, lines, start, paragraph) && r < |runs|
    ensures var at := RunsLength(runs[..r]);
      && runs[r].lines != [] && at + |runs[r].lines| <= |paragraph|
      && RunsLength(runs[..r + 1]) == at + |runs[r].lines|
      && PlainRun(md, lines, start + at, runs[r].lines)
      && runs[r].start == start + at && runs[r].end == start + at + |runs[r].lines| - 1
  {
    assert CutAt(runs, r, paragraph, start);
    assert runs[..r + 1][..r] == runs[..r];
  }

  // The builder is reset at the next line without carrying anything.
  lemma DropBuilder(md: Markdown, lines: Lines, i: nat, chunks: seq<Chunk>, now: Chunk, st: Progress)
    returns (st': Progress)
    requires Ready(md, lines, i, chunks, now, false, st)
    ensures Ready(md, lines, i, chunks + [now], Chunk([], now.headingPath, i + 1, i + 1, 0), true, st')
    ensures st' == Progress(st.pieces + [st.pending], st'.pending)
  {
    hide PieceOk, Chained, InkedLines, StackAfter, Follows;
    var next := Piece(Chunk([], now.headingPath, i + 1, i + 1, 0), 0, []);
    FollowsCarried(st.pending, [], now.headingPath, 0, i + 1);
    CarriedPiece(md, lines, [], now.headingPath, i + 1, 0);
    PushPending(md, lines, i, chunks, now, st, next);
    st' := Progress(st.pieces + [st.pending], next);
  }

  predicate AllBlank(md: Markdown, lines: Lines) {
    forall i :: 0 <= i < |lines| ==> md.blank(lines[i])
  }

  // The consecutive lines from i that are neither blank nor a heading.
  method GatherParagraph(md: Markdown, lines: Lines, i: nat) returns (paragraph: Lines)
    requires i < |lines| && !md.blank(lines[i]) && md.heading(lines[i]).None?
    ensures paragraph != [] && i + |paragraph| <= |lines| && PlainRun(md, lines, i + 1, paragraph)
    ensures paragraph == lines[i..i + |paragraph|] && IsParagraph(md, lines, i, i + |paragraph|)
  {
    paragraph := [];
    var j := i;
    while j < |lines| && !md.blank(lines[j])
      invariant i <= j <= |lines| && j == i + |paragraph|
      invariant PlainRun(md, lines, i + 1, paragraph) && paragraph == lines[i..j]
      invariant j == i ==> !md.blank(lines[j]) && md.heading(lines[j]).None?
    {
      if md.heading(lines[j]).Some? {
        break;
      }
      paragraph := paragraph + [lines[j]];
      j := j + 1;
    }
  }

  // A heading line: what is pending goes out and a chunk of the new section begins.
  method OpenSection(
    md: Markdown, builder: Builder, chunks: seq<Chunk>, stack: seq<string>, heading: Heading, i: nat,
    ghost lines: Lines, ghost st: Progress, ghost maxTokens: int, ghost overlapTarget: int)
    returns (chunks': seq<Chunk>, stack': seq<string>, ghost st': Progress)
    requires Lawful(md) && i < |lines| && md.heading(lines[i]) == Some(heading)
    requires Ready(md, lines, i, chunks, builder.Build(), builder.parts == [], st) && stack == builder.headingPath
    requires Packing(md, maxTokens, builder.parts, builder.tokens, st)
    requires Jointed(md, lines, maxTokens, overlapTarget, st)
    modifies builder
    ensures Jointed(md, lines, maxTokens, overlapTarget, st')
    ensures Ready(md, lines, i + 1, chunks', builder.Build(), builder.parts == [], st') && stack' == builder.headingPath
    ensures Packing(md, maxTokens, builder.parts, builder.tokens, st')
  {
    hide Ready, Cost, Jointed;
    PendingIsNow(md, lines, i, chunks, builder.Build(), builder.parts == [], st);
    var headLine := HeadLine(heading);
    var cost := md.estimate([headLine]);
    StartSection(md, lines, i, chunks, builder.Build(), builder.parts == [], st, cost);
    st' := Progress(if builder.parts == [] then st.pieces else st.pieces + [st.pending],
                    Piece(Chunk([headLine], UpdatePath(stack, heading), i + 1, i + 1, cost), 0, [i]));
    HeadingIsJoint(md, lines, maxTokens, overlapTarget, st, builder.parts == [], st');
    chunks' := chunks;
    if builder.parts != [] {
      chunks' := chunks + [builder.Build()];
    }
    stack' := UpdatePath(stack, heading);
    CostOneMore(md, [], [headLine]);
    assert [] + [[headLine]] == [[headLine]];
    PackPending(md, maxTokens, builder.parts, builder.tokens, st, [[headLine]], cost, st'.pending);
    builder.Reset(stack', i + 1);
    builder.Add([headLine], i + 1, cost);
  }

  lemma HeadingIsJoint(
    md: Markdown, lines: Lines, maxTokens: int, target: int, st: Progress, empty: bool, st': Progress)
    requires Jointed(md, lines, maxTokens, target, st)
    requires st'.pieces == (if empty then st.pieces else st.pieces + [st.pending])
    requires st'.pending.drop == 0 && st'.pending.origins != [] && st'.pending.origins[0] < |lines|
    requires md.heading(lines[st'.pending.origins[0]]).Some?
    ensures Jointed(md, lines, maxTokens, target, st')
  {
    hide Joints, InOversize;
    JointsOneMore(md, lines, maxTokens, target, st.pieces, st.pending);
    JointAnew(md, lines, maxTokens, target, st'.pieces, st'.pending);
  }

  // A paragraph, cut up if it is oversize.
  method AddParagraph(
    md: Markdown, builder: Builder, chunks: seq<Chunk>, stack: seq<string>, maxTokens: int, overlapTarget: int,
    paragraph: Lines, i: nat, ghost lines: Lines, ghost st: Progress)
    returns (chunks': seq<Chunk>, ghost st': Progress)
    requires Lawful(md) && paragraph != [] && i + |paragraph| <= |lines| && PlainRun(md, lines, i + 1, paragraph)
    requires Ready(md, lines, i, chunks, builder.Build(), builder.parts == [], st) && stack == builder.headingPath
    requires Packing(md, maxTokens, builder.parts, builder.tokens, st)
    requires Jointed(md, lines, maxTokens, overlapTarget, st)
    requires paragraph == lines[i..i + |paragraph|] && IsParagraph(md, lines, i, i + |paragraph|)
    modifies builder
    ensures Jointed(md, lines, maxTokens, overlapTarget, st')
    ensures Ready(md, lines, i + |paragraph|, chunks', builder.Build(), builder.parts == [], st')
    ensures stack == builder.headingPath
    ensures Packing(md, maxTokens, builder.parts, builder.tokens, st')
  {
    hide Ready, PlainRun, Lawful, Cost, Joints, Jointed, DoesNotFit, Packing, WithRun, JoinParts, IsParagraph, Last;
    var tokens := md.estimate(paragraph);
    JointedIs(md, lines, maxTokens, overlapTarget, st);
    if tokens > maxTokens {
      ParagraphIsOversize(md, lines, maxTokens, i, i + |paragraph|);
      chunks', st' := AddOversize(md, builder, chunks, stack, maxTokens, overlapTarget, paragraph, i + 1, lines, st);
      return;
    }
    chunks', st' := chunks, st;
    PendingIsNow(md, lines, i, chunks, builder.Build(), builder.parts == [], st);
    if builder.tokens + tokens > maxTokens && builder.parts != [] {
      chunks', st' := FlushWithOverlap(md, builder, chunks, stack, overlapTarget, lines, i, st, maxTokens);
    }
    MayFollow(md, lines, maxTokens, overlapTarget, st, st', i, i + |paragraph|);
    EmptyIsFresh(md, lines, i, chunks', builder.Build(), builder.parts == [], st');
    JointGrows(md, lines, maxTokens, overlapTarget, st', builder.parts == [], i + 1, paragraph, tokens);
    ghost var empty, now := builder.parts == [], builder.Build();
    PendingIsNow(md, lines, i, chunks', now, empty, st');
    RunBuilt(st'.pending, builder.parts, paragraph, i + 1, tokens);
    PackPart(md, maxTokens, builder.parts, builder.tokens, st', paragraph,
             WithRun(st'.pending, empty, i + 1, paragraph, tokens));
    AddRun(md, lines, i, chunks', now, empty, st', paragraph, tokens);
    st' := Progress(st'.pieces, WithRun(st'.pending, empty, i + 1, paragraph, tokens));
    builder.Add(paragraph, i + |paragraph|, tokens);
  }

  lemma ParagraphIsOversize(md: Markdown, lines: Lines, maxTokens: int, a: nat, b: nat)
    requires IsParagraph(md, lines, a, b) && md.estimate(lines[a..b]) > maxTokens
    ensures forall k: nat :: a <= k < b ==> InOversize(md, lines, maxTokens, k)
  {}

  // Before a paragraph goes in: nothing new is pending only behind a full piece or one it does not fit behind.
  lemma MayFollow(
    md: Markdown, lines: Lines, maxTokens: int, target: int, st: Progress, st': Progress, a: nat, b: nat)
    requires Jointed(md, lines, maxTokens, target, st) && IsParagraph(md, lines, a, b)
    requires st' == st || (&& st'.pieces == st.pieces + [st.pending]
                           && st.pending.chunk.tokens + md.estimate(lines[a..b]) > maxTokens)
    ensures st'.pending.origins == [] && st'.pieces != [] ==>
      || Last(st'.pieces).chunk.tokens >= maxTokens
      || DoesNotFit(md, lines, maxTokens, Last(st'.pieces).chunk.tokens, a)
  {
    hide Joints, IsParagraph;
  }

  datatype ChunkError = RatioOutOfRange | MaxTokensTooSmall

  /**
   chunk_markdown. The ghost result tells, for every chunk, how many of its leading lines were carried over
   and which lines of the document the others are: together exactly the inked lines, in order, each once.
   A chunk goes over the bound only with a single part besides what it carries over.
   */
  method ChunkMarkdown(md: Markdown, lines: Lines, maxTokens: int, overlapRatio: real)
    returns (result: Result<seq<Chunk>, ChunkError>, ghost pieces: seq<Piece>)
    requires Lawful(md)
    ensures result.Err? <==> !AllBlank(md, lines) && (!(0.0 <= overlapRatio < 1.0) || maxTokens < 1)
    ensures result.Ok? ==>
      && PiecesOf(result.value, pieces) && Chained(md, lines, pieces)
      && AllOrigins(pieces) == InkedLines(md, lines, |lines|)
      && (forall p :: p in pieces ==> Packed(md, maxTokens, p))
      && Joints(md, lines, maxTokens, (maxTokens as real * overlapRatio).Floor, pieces)
  {
    hide Ready, Lawful, PlainRun, Chained, AllOrigins, InkedLines, PiecesOf,
      JoinParts, AllBlank, Packed, Cost, Joints, Jointed, IsParagraph;
    if AllBlank(md, lines) {
      NoInkedLines(md, lines, |lines|);
      NoPieces(md, lines);
      NoJoints(md, lines, maxTokens, (maxTokens as real * overlapRatio).Floor);
      return Ok([]), [];
    }
    if !(0.0 <= overlapRatio < 1.0) {
      return Err(RatioOutOfRange), [];
    }
    if maxTokens < 1 {
      return Err(MaxTokensTooSmall), [];
    }
    var overlapTarget := (maxTokens as real * overlapRatio).Floor;
    var chunks: seq<Chunk> := [];
    var stack: seq<string> := [];
    var builder := new Builder();
    ghost var st := Start(md, lines);
    NothingJointed(md, lines, maxTokens, overlapTarget, st);
    assert builder.Build() == Chunk([], [], 1, 1, 0) by { NoParts(); }
    CostOneMore(md, [], []);
    var i := 0;
    while i < |lines|
      invariant 0 <= i <= |lines| && fresh(builder)
      invariant Ready(md, lines, i, chunks, builder.Build(), builder.parts == [], st) && stack == builder.headingPath
      invariant Packing(md, maxTokens, builder.parts, builder.tokens, st)
      invariant Jointed(md, lines, maxTokens, overlapTarget, st)
    {
      var line := lines[i];
      var heading := md.heading(line);
      if heading.Some? {
        chunks, stack, st := OpenSection(md, builder, chunks, stack,
            heading.value, i, lines, st, maxTokens, overlapTarget);
        i := i + 1;
        continue;
      }
      if md.blank(line) {
        SkipBlank(md, lines, i, chunks, builder.Build(), builder.parts == [], st);
        i := i + 1;
        continue;
      }
      var paragraph := GatherParagraph(md, lines, i);
      chunks, st := AddParagraph(md, builder, chunks, stack, maxTokens, overlapTarget, paragraph, i, lines, st);
      i := i + |paragraph|;
    }
    JointedIs(md, lines, maxTokens, overlapTarget, st);
    JointsOneMore(md, lines, maxTokens, overlapTarget, st.pieces, st.pending);
    pieces := Finish(md, lines, chunks, builder.Build(), builder.parts == [], st);
    PendingIsNow(md, lines, |lines|, chunks, builder.Build(), builder.parts == [], st);
    PackPending(md, maxTokens, builder.parts, builder.tokens, st, [], 0, st.pending);
    if builder.parts != [] {
      chunks := chunks + [builder.Build()];
    }
    result := Ok(chunks);
  }

  lemma NoPieces(md: Markdown, lines: Lines)
    ensures PiecesOf([], []) && Chained(md, lines, []) && AllOrigins([]) == []
  {}

  lemma NoParts()
    ensures JoinParts([]) == []
  {}

  lemma {:induction false} NoInkedLines(md: Markdown, lines: Lines, n: nat)
    requires AllBlank(md, lines) && n <= |lines|
    ensures InkedLines(md, lines, n) == []
  {
    if n > 0 {
      NoInkedLines(md, lines, n - 1);
    }
  }

  lemma Start(md: Markdown, lines: Lines) returns (st: Progress)
    ensures Ready(md, lines, 0, [], Chunk([], [], 1, 1, 0), true, st) && st.pieces == []
  {
    st := Progress([], Piece(Chunk([], [], 1, 1, 0), 0, []));
    CarriedPiece(md, lines, [], [], 1, 0);
    ChainedParts(md, lines, [], st.pending);
  }

  lemma NoJoints(md: Markdown, lines: Lines, maxTokens: int, target: int)
    ensures Joints(md, lines, maxTokens, target, [])
  {}

  lemma NothingJointed(md: Markdown, lines: Lines, maxTokens: int, target: int, st: Progress)
    requires st.pieces == []
    ensures Jointed(md, lines, maxTokens, target, st)
  {}

  lemma Finish(md: Markdown, lines: Lines, chunks: seq<Chunk>, now: Chunk, empty: bool, st: Progress)
    returns (pieces: seq<Piece>)
    requires Ready(md, lines, |lines|, chunks, now, empty, st)
    ensures PiecesOf(if empty then chunks else chunks + [now], pieces)
    ensures pieces == if empty then st.pieces else st.pieces + [st.pending]
    ensures Chained(md, lines, pieces) && AllOrigins(pieces) == InkedLines(md, lines, |lines|)
  {
    pieces := if empty then st.pieces else st.pieces + [st.pending];
    ChainedParts(md, lines, st.pieces, st.pending);
    OriginsOfOneMore(st.pieces, st.pending);
  }

  // ---------- what the result means for a reader of the chunks ----------

  lemma {:induction false} InkedLinesAre(md: Markdown, lines: Lines, n: nat)
    requires n <= |lines|
    ensures forall k :: k in InkedLines(md, lines, n) <==> 0 <= k < n && !md.blank(lines[k])
    ensures forall i, j :: 0 <= i < j < |InkedLines(md, lines, n)| ==>
            InkedLines(md, lines, n)[i] < InkedLines(md, lines, n)[j]
  {
    if n > 0 {
      InkedLinesAre(md, lines, n - 1);
      var before := InkedLines(md, lines, n - 1);
      assert forall i :: 0 <= i < |before| ==> before[i] in before;
    }
  }

  // The fresh lines of all chunks, blank ones left out.
  function FreshLines(md: Markdown, pieces: seq<Piece>): Lines {
    if pieces == [] then [] else
      var p := pieces[|pieces| - 1];
      FreshLines(md, pieces[..|pieces| - 1])
      + Inked(md, if p.drop <= |p.chunk.content| then p.chunk.content[p.drop..] else [])
  }

  /**
   Nothing is lost or reordered: without what is carried over, the lines of the chunks are the non-blank
   lines of the document in order, headings in canonical form.
   */
  lemma {:induction false} NothingLost(md: Markdown, lines: Lines, pieces: seq<Piece>)
    requires Chained(md, lines, pieces)
    ensures forall k :: k in AllOrigins(pieces) ==> k < |lines|
    ensures FreshLines(md, pieces) == CanonicalLines(md, lines, AllOrigins(pieces))
  {
    if pieces != [] {
      var front, p := pieces[..|pieces| - 1], pieces[|pieces| - 1];
      assert front + [p] == pieces;
      ChainedParts(md, lines, front, p);
      NothingLost(md, lines, front);
      CanonicalConcat(md, lines, AllOrigins(front), p.origins);
    }
  }
}
