/** Profile texts seen as plain text and managed blocks, and what the searches of Profile do to them. */
module ProfileDocs {
  import opened Profile
  import opened Text
  import opened Wrappers

  // ---------- texts with managed blocks ----------

  /** A text cut at its managed blocks: plain text, a block, plain text, and so on. */
  datatype Doc = Tail(plain: string) | More(plain: string, key: string, body: string, rest: Doc)

  function Block(key: string, body: string): string {
    Start(key) + body + End(key)
  }

  function TextOf(d: Doc): string {
    if d.Tail? then d.plain else d.plain + (Block(d.key, d.body) + TextOf(d.rest))
  }

  // Every marker in the text opens or closes one of the blocks.
  ghost predicate Good(d: Doc) {
    Free(d.plain) && (d.More? ==> d.key in KEYS && Free(d.body) && Good(d.rest))
  }

  predicate HasKey(d: Doc, key: string) {
    d.More? && (d.key == key || HasKey(d.rest, key))
  }

  function Replaced(d: Doc, key: string, body: string): Doc {
    if d.Tail? then d
    else More(d.plain, d.key, if d.key == key then body else d.body, Replaced(d.rest, key, body))
  }

  function Appended(d: Doc, key: string, body: string): Doc {
    if d.More? then More(d.plain, d.key, d.body, Appended(d.rest, key, body))
    else More(d.plain + (if d.plain != "" && d.plain[|d.plain| - 1] == '\n' then "" else "\n") + "\n",
              key, body, Tail("\n"))
  }

  function Upserted(d: Doc, key: string, body: string): Doc {
    if HasKey(d, key) then Replaced(d, key, body) else Appended(d, key, body)
  }

  lemma KeyMarkers(key: string)
    requires key in KEYS
    ensures IsMarker(Start(key)) && IsMarker(End(key))
  {}

  lemma Reassociate(a: string, b: string, c: string)
    ensures (a + b) + c == a + (b + c)
  {}

  // A search passes over a block that the marker neither opens nor closes.
  lemma MarkerBeyondBlock(key: string, body: string, t: string, m: string)
    requires key in KEYS && Free(body) && IsMarker(m) && m != Start(key) && m != End(key)
    ensures Find(Block(key, body) + t, m) == Shift(|Block(key, body)|, Find(t, m))
  {
    hide IsMarker, Free, Find, Start, End;
    KeyMarkers(key);
    var s, e := Start(key), End(key);
    MarkerShape(e);
    MarkerBeyondMarker(e, t, m);
    MarkerBeyondText(body, e + t, m);
    MarkerBeyondMarker(s, body + (e + t), m);
    assert Block(key, body) + t == s + (body + (e + t));
  }

  // The closing marker of a block is the first one after its opening marker.
  lemma EndOfBlock(key: string, body: string, t: string)
    requires key in KEYS && Free(body)
    ensures Find(body + End(key) + t, End(key)) == Some(|body|)
  {
    hide IsMarker, Free, Find, Start, End;
    KeyMarkers(key);
    MarkerShape(End(key));
    MarkerHere(End(key), t);
    MarkerBeyondText(body, End(key) + t, End(key));
    Reassociate(body, End(key), t);
  }

  // The first block of a key is where the search for its opening marker ends.
  lemma {:induction false} FindBlock(d: Doc, key: string) returns (at: nat, t: string)
    requires Good(d) && key in KEYS && HasKey(d, key)
    ensures Find(TextOf(d), Start(key)) == Some(at)
    ensures at + |Start(key)| <= |TextOf(d)|
    ensures TextOf(d)[at + |Start(key)|..] == FirstBody(d, key) + End(key) + t
  {
    hide IsMarker, Free, Find, Start, End, Block, OccursAt;
    var block, rest := Block(d.key, d.body), TextOf(d.rest);
    KeyMarkers(key);
    BlockStarts(d.key, d.body, rest);
    MarkerBeyondText(d.plain, block + rest, Start(key));
    if d.key == key {
      at, t := |d.plain|, rest;
      FindBlockHere(d.plain, key, d.body, rest);
    } else {
      StartsAndEndsDiffer(key, d.key);
      MarkerBeyondBlock(d.key, d.body, rest, Start(key));
      at, t := FindBlock(d.rest, key);
      FindBlockThere(d.plain, block, rest, |Start(key)|, at);
      at := |d.plain| + |block| + at;
    }
  }

  lemma FindBlockThere(plain: string, block: string, rest: string, length: nat, at: nat)
    requires at + length <= |rest|
    ensures (plain + (block + rest))[|plain| + |block| + at + length..] == rest[at + length..]
  {
    Reassociate(plain, block, rest);
    SliceBeyond(plain + block, rest, at + length);
  }

  lemma FindBlockHere(plain: string, key: string, body: string, t: string)
    ensures Find(Block(key, body) + t, Start(key)) == Some(0)
    ensures |plain| + |Start(key)| <= |plain + (Block(key, body) + t)|
    ensures (plain + (Block(key, body) + t))[|plain| + |Start(key)|..] == body + End(key) + t
  {
    hide Find, Start, End;
    assert Block(key, body) + t == Start(key) + (body + End(key) + t);
    MarkerHere(Start(key), body + End(key) + t);
    Reassociate(plain, Start(key), body + End(key) + t);
    SliceBeyond(plain + Start(key), body + End(key) + t, 0);
  }

  function FirstBody(d: Doc, key: string): string
    requires HasKey(d, key)
  {
    if d.key == key then d.body else FirstBody(d.rest, key)
  }

  lemma {:induction false} FindNoBlock(d: Doc, key: string)
    requires Good(d) && key in KEYS && !HasKey(d, key)
    ensures Find(TextOf(d), Start(key)).None?
  {
    hide IsMarker, Free, Start, End;
    var m := Start(key);
    KeyMarkers(key);
    if d.Tail? {
      NotInFree(d.plain, m);
    } else {
      FindNoBlock(d.rest, key);
      KeyMarkers(d.key);
      MarkerShape(Start(d.key));
      StartsAndEndsDiffer(key, d.key);
      assert (Block(d.key, d.body) + TextOf(d.rest))[0] == Start(d.key)[0];
      MarkerBeyondText(d.plain, Block(d.key, d.body) + TextOf(d.rest), m);
      MarkerBeyondBlock(d.key, d.body, TextOf(d.rest), m);
    }
  }

  lemma NotInFree(s: string, m: string)
    requires Free(s) && IsMarker(m)
    ensures Find(s, m).None?
  {}

  // ---------- what an upsert does ----------

  function ShiftSpan(n: nat, r: Option<(nat, nat)>): Option<(nat, nat)> {
    if r.None? then None else Some((n + r.value.0, n + r.value.1))
  }

  lemma SearchEndBeyond(a: string, t: string, key: string, i: nat)
    requires i + |Start(key)| <= |t|
    ensures SearchEnd(a + t, key, |a| + i) == ShiftSpan(|a|, SearchEnd(t, key, i))
  {
    hide Find, Start, End, OccursAt;
    SliceBeyond(a, t, i + |Start(key)|);
  }

  lemma SearchBeyond(a: string, t: string, key: string)
    requires Find(a + t, Start(key)) == Shift(|a|, Find(t, Start(key)))
    ensures Search(a + t, key) == ShiftSpan(|a|, Search(t, key))
  {
    hide Find, Start, End, OccursAt, SearchEnd;
    var i := Find(t, Start(key));
    if i.Some? {
      OccurrenceFits(t, Start(key), i.value);
      SearchEndBeyond(a, t, key, i.value);
    }
  }

  lemma SliceBeyond(a: string, t: string, n: nat)
    requires n <= |t|
    ensures (a + t)[|a| + n..] == t[n..]
  {}

  lemma SubstituteBeyond(a: string, t: string, key: string, block: string)
    requires Find(a + t, Start(key)) == Shift(|a|, Find(t, Start(key)))
    ensures Substitute(a + t, key, block) == a + Substitute(t, key, block)
  {
    hide Find, Search, Substitute, Start, End;
    SearchBeyond(a, t, key);
    SubstituteOnce(t, key, block);
    SubstituteOnce(a + t, key, block);
    var at := Search(t, key);
    if at.Some? {
      SliceBeyond(a, t, at.value.1);
      PrefixBeyond(a, t, at.value.0);
      var rest := Substitute(t[at.value.1..], key, block);
      ReassociateFour(a, t[..at.value.0], block, rest);
    }
  }

  lemma ReassociateFour(a: string, b: string, c: string, d: string)
    ensures (a + b) + c + d == a + (b + c + d)
  {}

  lemma PrefixBeyond(a: string, t: string, n: nat)
    requires n <= |t|
    ensures (a + t)[..|a| + n] == a + t[..n]
  {}

  lemma SubstituteOnce(text: string, key: string, block: string)
    ensures Substitute(text, key, block) ==
            var at := Search(text, key);
            if at.None? then text else text[..at.value.0] + block + Substitute(text[at.value.1..], key, block)
  {}

  lemma SubstituteHere(key: string, body: string, t: string, block: string)
    requires key in KEYS && Free(body)
    ensures Search(Block(key, body) + t, key) == Some((0, |Block(key, body)|))
    ensures Substitute(Block(key, body) + t, key, block) == block + Substitute(t, key, block)
  {
    hide Free, Find, Start, End, Block, Search;
    SearchHere(key, body, t);
    SliceBeyond(Block(key, body), t, 0);
    assert t[0..] == t && (Block(key, body) + t)[..0] == "";
  }

  lemma SearchHere(key: string, body: string, t: string)
    requires key in KEYS && Free(body)
    ensures Search(Block(key, body) + t, key) == Some((0, |Block(key, body)|))
  {
    hide Free, Find, Start, End;
    var text := Block(key, body) + t;
    assert text == Start(key) + (body + End(key) + t);
    MarkerHere(Start(key), body + End(key) + t);
    SliceBeyond(Start(key), body + End(key) + t, 0);
    EndOfBlock(key, body, t);
  }

  lemma {:induction false} SubstituteInDoc(d: Doc, key: string, body: string)
    requires Good(d) && key in KEYS
    ensures Substitute(TextOf(d), key, Block(key, body)) == TextOf(Replaced(d, key, body))
    ensures Search(TextOf(d), key).Some? <==> HasKey(d, key)
  {
    hide IsMarker, Free, Find, Start, End, Search, Substitute, Block;
    if d.Tail? {
      FindNoBlock(d, key);
      NoSearch(d.plain, key, Block(key, body));
    } else {
      SubstituteInDoc(d.rest, key, body);
      var block, t := Block(d.key, d.body), TextOf(d.rest);
      BlockStarts(d.key, d.body, t);
      KeyMarkers(key);
      MarkerBeyondText(d.plain, block + t, Start(key));
      SearchBeyond(d.plain, block + t, key);
      SubstituteBeyond(d.plain, block + t, key, Block(key, body));
      if d.key == key {
        SubstituteHere(key, d.body, t, Block(key, body));
      } else {
        StartsAndEndsDiffer(key, d.key);
        MarkerBeyondBlock(d.key, d.body, t, Start(key));
        SearchBeyond(block, t, key);
        SubstituteBeyond(block, t, key, Block(key, body));
      }
    }
  }

  lemma NoSearch(text: string, key: string, block: string)
    requires Find(text, Start(key)).None?
    ensures Search(text, key).None? && Substitute(text, key, block) == text
  {}

  lemma BlockStarts(key: string, body: string, t: string)
    requires key in KEYS
    ensures Block(key, body) + t != "" && (Block(key, body) + t)[0] == '<'
  {}

  lemma {:induction false} AppendedText(d: Doc, key: string, body: string)
    requires Good(d) && key in KEYS
    ensures TextOf(Appended(d, key, body)) == Padded(TextOf(d), Block(key, body))
  {
    hide Free, Good, Block, Padded;
    AppendedUnfolds(d, key, body);
    if d.Tail? {
      assert TextOf(Tail("\n")) == "\n";
    } else {
      AppendedText(d.rest, key, body);
      BlockEnds(d.key, d.body);
      PadBeyond(d.plain + Block(d.key, d.body), TextOf(d.rest), Block(key, body));
      Reassociate(d.plain, Block(d.key, d.body), TextOf(d.rest));
      Reassociate(d.plain, Block(d.key, d.body), TextOf(Appended(d.rest, key, body)));
    }
  }

  lemma AppendedUnfolds(d: Doc, key: string, body: string)
    requires Good(d)
    ensures if d.Tail? then TextOf(Appended(d, key, body)) == Padded(d.plain, Block(key, body))
            else d.key in KEYS && Good(d.rest)
  {
    hide Block;
    if d.Tail? {
      assert TextOf(Tail("\n")) == "\n";
    }
  }

  lemma BlockEnds(key: string, body: string)
    requires key in KEYS
    ensures var block := Block(key, body); block != "" && block[|block| - 1] == '>'
  {}

  lemma PadBeyond(a: string, t: string, block: string)
    requires a != "" && a[|a| - 1] != '\n'
    ensures Padded(a + t, block) == a + Padded(t, block)
  {
    if t == "" {
      assert a + t == a;
    }
  }

  lemma UpsertInDoc(d: Doc, key: string, body: string)
    requires Good(d) && key in KEYS
    ensures Upsert(TextOf(d), key, Block(key, body)) == TextOf(Upserted(d, key, body))
  {
    hide Good, TextOf, Block, Search, Substitute, Replaced, Appended, HasKey;
    SubstituteInDoc(d, key, body);
    AppendedText(d, key, body);
  }

  // ---------- what a block says ----------

  predicate OneLine(s: string) {
    forall i :: 0 <= i < |s| ==> !IsLineBreak(s[i])
  }

  lemma {:induction false} LinesOfConcat(a: string, b: string)
    requires a == "" || a[|a| - 1] == '\n'
    ensures SplitLines(a + b) == SplitLines(a) + SplitLines(b)
    decreases |a|
  {
    hide IsLineBreak, SplitLines, LineLength, FirstLineEnd;
    if a == "" {
      NoLines();
      assert a + b == b;
    } else {
      LineLengthOfConcat(a, b);
      FirstLine(a);
      FirstLine(a + b);
      var n, k := LineLength(a), FirstLineEnd(a);
      SliceOfConcat(a, b, n);
      SliceOfConcat(a, b, k);
      LinesOfConcat(a[k..], b);
      LinesAssociate([a[..n]], SplitLines(a[k..]), SplitLines(b));
    }
  }

  lemma NoLines()
    ensures SplitLines("") == []
  {}

  lemma LinesAssociate(a: seq<string>, b: seq<string>, c: seq<string>)
    ensures a + (b + c) == (a + b) + c
  {}

  // Where the first line ends, its break included.
  function FirstLineEnd(s: string): (k: nat)
    requires LineLength(s) < |s|
    ensures LineLength(s) < k <= |s|
  {
    var n := LineLength(s);
    if s[n] == '\r' && n + 1 < |s| && s[n + 1] == '\n' then n + 2 else n + 1
  }

  lemma FirstLine(s: string)
    requires LineLength(s) < |s|
    ensures SplitLines(s) == [s[..LineLength(s)]] + SplitLines(s[FirstLineEnd(s)..])
  {}

  lemma {:induction false} LineLengthOfConcat(a: string, b: string)
    requires a != "" && a[|a| - 1] == '\n'
    ensures LineLength(a + b) == LineLength(a) < |a|
    ensures FirstLineEnd(a + b) == FirstLineEnd(a)
  {
    assert (a + b)[0] == a[0];
    if !IsLineBreak(a[0]) {
      assert (a + b)[1..] == a[1..] + b;
      LineLengthOfConcat(a[1..], b);
    }
  }

  lemma LineAlone(line: string)
    requires OneLine(line)
    ensures SplitLines(line + "\n") == [line]
  {
    var s := line + "\n";
    var n := LineLength(s);
    assert forall i :: 0 <= i < |line| ==> s[i] == line[i];
    assert IsLineBreak(s[|line|]);
    assert n == |line|;
    assert s[..n] == line && s[n + 1..] == "";
  }

  lemma {:induction false} LinesOfJoin(lines: seq<string>)
    requires lines != [] && forall i :: 0 <= i < |lines| ==> OneLine(lines[i])
    ensures SplitLines(Join("\n", lines) + "\n") == lines
  {
    hide OneLine, SplitLines;
    var last := |lines| - 1;
    LineAlone(lines[last]);
    if last > 0 {
      LinesOfJoin(lines[..last]);
      var front := Join("\n", lines[..last]) + "\n";
      assert Join("\n", lines) + "\n" == front + (lines[last] + "\n");
      LinesOfConcat(front, lines[last] + "\n");
    }
  }

  // The items that survive a reading: trimmed, and not blank.
  function Cleaned(items: seq<string>): seq<string> {
    if items == [] then [] else
      var item := Strip(Python, items[|items| - 1]);
      Cleaned(items[..|items| - 1]) + if item == "" then [] else [item]
  }

  lemma {:induction false} StripRightOfConcat(a: string, b: string)
    ensures StripRight(Python, a + b) ==
            if StripRight(Python, b) == "" then StripRight(Python, a) else a + StripRight(Python, b)
  {
    if b == "" {
      assert a + b == a;
    } else {
      var front := b[..|b| - 1];
      StripRightOfConcat(a, front);
      assert (a + b)[..|a + b| - 1] == a + front;
      assert (a + b)[|a + b| - 1] == b[|b| - 1];
    }
  }

  lemma StripRightTwice(s: string)
    ensures StripRight(Python, StripRight(Python, s)) == StripRight(Python, s)
  {
    StripRightEnd(Python, s);
  }

  lemma {:induction false} StripsCommute(s: string)
    ensures StripRight(Python, StripLeft(Python, s)) == StripLeft(Python, StripRight(Python, s))
  {
    if s != "" {
      assert s == [s[0]] + s[1..];
      StripRightOfConcat([s[0]], s[1..]);
      assert StripRight(Python, [s[0]]) == if IsSpace(Python, s[0]) then "" else [s[0]];
      StripsCommute(s[1..]);
      var right := StripRight(Python, s[1..]);
      assert ([s[0]] + right)[1..] == right;
    }
  }

  lemma BulletReads(item: string)
    ensures var line, core := Strip(Python, "- " + item), Strip(Python, item);
            if core == "" then !("- " <= line) else "- " <= line && Strip(Python, line[2..]) == core
  {
    hide IsSpace, StripLeft, StripRight;
    var right := StripRight(Python, item);
    DashStays(item);
    StripRightOfConcat("- ", item);
    StripsCommute(item);
    StripsCommute(right);
    StripRightTwice(item);
    StripRightTwice(StripLeft(Python, item));
    LeftBlank(right);
    StripRightEnd(Python, item);
    assert ("- " + right)[2..] == right && ("- " + right)[..2] == "- ";
  }

  lemma DashStays(item: string)
    ensures StripLeft(Python, "- " + item) == "- " + item
    ensures StripRight(Python, "- ") == "-" && StripLeft(Python, "") == ""
  {
    assert ("- " + item)[0] == '-';
    assert "- "[..1] == "-";
  }

  lemma {:induction false} LeftBlank(s: string)
    ensures StripLeft(Python, s) == "" ==> s == "" || IsSpace(Python, s[|s| - 1])
  {
    if s != "" {
      LeftBlank(s[1..]);
    }
  }

  lemma {:induction false} BulletsRead(before: seq<string>, items: seq<string>)
    requires ItemsOf(before) == []
    ensures ItemsOf(before + Bullets(items)) == Cleaned(items)
  {
    hide Strip, ItemsOf, Cleaned, Bullets;
    BulletsOneMore([], "");
    if items == [] {
      assert before + Bullets(items) == before;
      CleanedOneMore([], "");
    } else {
      var front, item := items[..|items| - 1], items[|items| - 1];
      assert items == front + [item];
      BulletsRead(before, front);
      BulletsOneMore(front, item);
      CleanedOneMore(front, item);
      ItemsOneMore(before + Bullets(front), "- " + item);
      BulletReads(item);
      assert before + Bullets(items) == (before + Bullets(front)) + ["- " + item];
    }
  }

  lemma BulletsOneMore(items: seq<string>, item: string)
    ensures Bullets(items + [item]) == Bullets(items) + ["- " + item] && Bullets([]) == []
  {}

  lemma CleanedOneMore(items: seq<string>, item: string)
    ensures Cleaned(items + [item]) ==
            Cleaned(items) + (if Strip(Python, item) == "" then [] else [Strip(Python, item)])
    ensures Cleaned([]) == []
  {
    assert (items + [item])[..|items|] == items;
  }

  lemma ItemsOneMore(lines: seq<string>, line: string)
    ensures var stripped := Strip(Python, line);
            ItemsOf(lines + [line]) ==
                ItemsOf(lines) + (if "- " <= stripped then [Strip(Python, stripped[2..])] else [])
  {
    assert (lines + [line])[..|lines|] == lines;
  }

  lemma TitlesAreLines(i: nat)
    requires i < |KEYS|
    ensures OneLine(TITLES[i])
  {
    assert OneLine("Style");
    assert OneLine("Tooling");
    assert OneLine("Workflow");
    assert OneLine("Vetoes");
    assert OneLine("Current priorities");
  }

  lemma TitlesArePlain(i: nat)
    requires i < |KEYS|
    ensures PlainKey(TITLES[i])
  {
    assert PlainKey("Style");
    assert PlainKey("Tooling");
    assert PlainKey("Workflow");
    assert PlainKey("Vetoes");
    assert PlainKey("Current priorities");
  }

  // Items that the program can write and read back: one line, no marker and no backslash in any of them.
  ghost predicate CleanItems(items: seq<string>) {
    forall i :: 0 <= i < |items| ==> OneLine(items[i]) && Free(items[i]) && '\\' !in items[i]
  }

  function Lines(items: seq<string>): seq<string> {
    if items == [] then ["-"] else Bullets(items)
  }

  lemma BodyIs(title: string, items: seq<string>)
    ensures Body(title, items) == "\n" + (("## " + title + "\n") + ("\n" + (Join("\n", Lines(items)) + "\n")))
  {
    assert "\n## " == "\n" + "## " && "\n\n" == "\n" + "\n";
  }

  lemma LinesAreLines(items: seq<string>)
    requires CleanItems(items)
    ensures Lines(items) != [] && forall i :: 0 <= i < |Lines(items)| ==> OneLine(Lines(items)[i])
  {
    assert OneLine("-") && OneLine("- ");
    forall i | 0 <= i < |Bullets(items)| ensures OneLine(Bullets(items)[i]) {
      assert Bullets(items)[i] == "- " + items[i];
    }
  }

  lemma TitleLine(i: nat)
    requires i < |KEYS|
    ensures OneLine("## " + TITLES[i])
    ensures !("- " <= Strip(Python, "## " + TITLES[i]))
  {
    hide Strip;
    TitlesAreLines(i);
    assert OneLine("## ");
    NoBullet(TITLES[i]);
  }

  lemma NoBullet(title: string)
    ensures !("- " <= Strip(Python, "## " + title))
  {
    hide StripRight;
    var line := "## " + title;
    HashesStay(line);
    StripRightOfConcat("##", " " + title);
    assert line == "##" + (" " + title);
  }

  lemma HashesStay(line: string)
    requires line != "" && line[0] == '#'
    ensures StripLeft(Python, line) == line && StripRight(Python, "##") == "##"
  {}

  // A block, read line by line, gives back its items.
  lemma BodyReads(i: nat, items: seq<string>)
    requires i < |KEYS| && CleanItems(items)
    ensures ItemsOf(SplitLines(Body(TITLES[i], items)[1..])) == Cleaned(items)
  {
    hide IsLineBreak, OneLine, LineLength, SplitLines, Strip, ItemsOf, Body, Join, CleanItems, Cleaned, Lines;
    var title := "## " + TITLES[i];
    var tail := Join("\n", Lines(items)) + "\n";
    BodyIs(TITLES[i], items);
    assert Body(TITLES[i], items)[1..] == (title + "\n") + ("\n" + tail);
    TitleLine(i);
    LineAlone(title);
    EmptyLine();
    LinesAreLines(items);
    LinesOfJoin(Lines(items));
    LinesOfConcat(title + "\n", "\n" + tail);
    LinesOfConcat("\n", tail);
    assert SplitLines((title + "\n") + ("\n" + tail)) == [title, ""] + Lines(items);
    LinesRead(title, items);
  }

  lemma EmptyLine()
    ensures SplitLines("\n") == [""]
  {
    assert OneLine("") && "" + "\n" == "\n";
    LineAlone("");
  }

  lemma LinesRead(title: string, items: seq<string>)
    requires !("- " <= Strip(Python, title))
    ensures ItemsOf([title, ""] + Lines(items)) == Cleaned(items)
  {
    assert ItemsOf([]) == [];
    assert [title][..0] == [] && [title, ""][..1] == [title];
    assert ItemsOf([title]) == [];
    assert Strip(Python, "") == "";
    assert ItemsOf([title, ""]) == [];
    if items == [] {
      assert StripLeft(Python, "-") == "-" && StripRight(Python, "-") == "-";
      assert ([title, ""] + ["-"])[..2] == [title, ""];
    } else {
      BulletsRead([title, ""], items);
    }
  }

  // ---------- blocks stay blocks ----------

  lemma FreePart(s: string, i: nat, j: nat)
    requires Free(s) && i <= j <= |s|
    ensures Free(s[i..j])
  {
    forall m, k | IsMarker(m) ensures !OccursAt(s[i..j], m, k) {
      if OccursAt(s[i..j], m, k) {
        OccursIn(s[i..j], m, k);
        assert m == s[i..j][k..][..|m|] == s[i + k..][..|m|];
        assert OccursAt(s, m, i + k);
      }
    }
  }

  // Text with a line feed at the seam holds no marker across it.
  lemma FreeAtLineFeed(a: string, b: string)
    requires Free(a) && Free(b)
    requires a == "" || b == "" || a[|a| - 1] == '\n' || b[0] == '\n'
    ensures Free(a + b)
  {
    forall m, i | IsMarker(m) ensures !OccursAt(a + b, m, i) {
      if OccursAt(a + b, m, i) {
        MarkerShape(m);
        OccursIn(a + b, m, i);
        if i < |a| {
          CrossingMeets(a, b, m, i);
          CrossingLeaves(a, b, m, i);
          OccursIf(a, m, i);
        } else {
          assert (a + b)[i..] == b[i - |a|..];
          assert OccursAt(b, m, i - |a|);
        }
      }
    }
  }

  lemma CrossingLeaves(a: string, t: string, m: string, i: nat)
    requires i < |a| && i + |m| <= |a + t| && forall j :: 0 <= j < |m| ==> (a + t)[i + j] == m[j]
    ensures |a| < i + |m| ==> m[|a| - 1 - i] == a[|a| - 1]
  {
    assert |a| < i + |m| ==> (a + t)[i + (|a| - 1 - i)] == m[|a| - 1 - i];
  }

  lemma FreeAfter(a: string, b: string)
    requires (forall i :: 0 <= i < |a| ==> a[i] != '<') && Free(b)
    ensures Free(a + b)
  {
    forall m, i | IsMarker(m) ensures !OccursAt(a + b, m, i) {
      if OccursAt(a + b, m, i) {
        MarkerShape(m);
        OccursIn(a + b, m, i);
        assert (a + b)[i] == '<' && i >= |a|;
        assert (a + b)[i..] == b[i - |a|..];
        assert OccursAt(b, m, i - |a|);
      }
    }
  }

  lemma FreeOfAngles(s: string)
    requires forall i :: 0 <= i < |s| ==> s[i] != '<'
    ensures Free(s)
  {
    assert Free("") by {
      forall m, i | IsMarker(m) ensures !OccursAt("", m, i) {
        MarkerShape(m);
      }
    }
    FreeAfter(s, "");
    assert s + "" == s;
  }

  lemma {:induction false} FreeJoin(lines: seq<string>)
    requires forall i :: 0 <= i < |lines| ==> Free(lines[i])
    ensures Free(Join("\n", lines))
  {
    hide Free;
    FreeOfAngles("");
    if |lines| > 1 {
      var last := |lines| - 1;
      FreeJoin(lines[..last]);
      FreeOfAngles("\n");
      FreeAtLineFeed(Join("\n", lines[..last]), "\n");
      FreeAtLineFeed(Join("\n", lines[..last]) + "\n", lines[last]);
    }
  }

  lemma BodyIsFree(i: nat, items: seq<string>)
    requires i < |KEYS| && CleanItems(items)
    ensures Free(Body(TITLES[i], items))
  {
    hide Free, Join, Body;
    TitlesArePlain(i);
    forall k | 0 <= k < |Lines(items)| ensures Free(Lines(items)[k]) {
      if items == [] {
        FreeOfAngles("-");
      } else {
        FreeAfter("- ", items[k]);
      }
    }
    FreeJoin(Lines(items));
    FreeOfAngles("\n");
    FreeAtLineFeed(Join("\n", Lines(items)), "\n");
    BodyIs(TITLES[i], items);
    FreeAfter("\n", Join("\n", Lines(items)) + "\n");
    FreeAfter("## " + TITLES[i] + "\n", "\n" + (Join("\n", Lines(items)) + "\n"));
    FreeAfter("\n", ("## " + TITLES[i] + "\n") + ("\n" + (Join("\n", Lines(items)) + "\n")));
  }
}
