/** What rendering a profile promises: it reads back, it keeps what stands outside its blocks, and it settles. */
module ProfileLaws {
  import opened Profile
  import opened ProfileDocs
  import opened Text
  import opened Wrappers

  // ---------- rendering, block by block ----------

  ghost predicate WellFormed(text: string) {
    exists d :: Good(d) && TextOf(d) == text
  }

  ghost predicate CleanSections(sections: Sections) {
    forall i :: 0 <= i < |KEYS| ==> CleanItems(ItemsFor(sections, KEYS[i]))
  }

  function LastPlain(d: Doc): string {
    if d.Tail? then d.plain else LastPlain(d.rest)
  }

  function WithLast(d: Doc, plain: string): Doc {
    if d.Tail? then Tail(plain) else More(d.plain, d.key, d.body, WithLast(d.rest, plain))
  }

  function WithFirst(d: Doc, plain: string): Doc {
    if d.Tail? then Tail(plain) else More(plain, d.key, d.body, d.rest)
  }

  function StrippedLeft(d: Doc): Doc {
    WithFirst(d, StripLeft(Python, d.plain))
  }

  function StrippedRight(d: Doc): Doc {
    WithLast(d, StripRight(Python, LastPlain(d)))
  }

  function HeadedDoc(d: Doc): Doc {
    if TextOf(d) == "" then Tail(HEADER)
    else if Contains(TextOf(d), HEADER) then d
    else WithFirst(d, HEADER + "\n\n" + d.plain)
  }

  function BodyFor(sections: Sections, i: nat): string
    requires i < |KEYS|
  {
    Body(TITLES[i], ItemsFor(sections, KEYS[i]))
  }

  function Filled(d: Doc, sections: Sections, n: nat): Doc
    requires n <= |KEYS|
  {
    if n == 0 then d else Upserted(Filled(d, sections, n - 1), KEYS[n - 1], BodyFor(sections, n - 1))
  }

  function Closed(d: Doc): Doc {
    WithLast(d, StripRight(Python, LastPlain(d)) + "\n")
  }

  // What rendering makes of a text with managed blocks.
  function RenderedDoc(d: Doc, sections: Sections): Doc {
    Closed(Filled(HeadedDoc(StrippedRight(StrippedLeft(d))), sections, |KEYS|))
  }

  // ---------- the first and the last plain text ----------

  lemma {:induction false} StripLeftOfConcat(a: string, t: string)
    requires t != "" && !IsSpace(Python, t[0])
    ensures StripLeft(Python, a + t) == StripLeft(Python, a) + t
  {
    if a == "" {
      assert a + t == t;
    } else {
      assert (a + t)[1..] == a[1..] + t;
      StripLeftOfConcat(a[1..], t);
    }
  }

  lemma StripLeftInDoc(d: Doc)
    requires Good(d)
    ensures TextOf(StrippedLeft(d)) == StripLeft(Python, TextOf(d))
  {
    if d.More? {
      BlockStarts(d.key, d.body, TextOf(d.rest));
      StripLeftOfConcat(d.plain, Block(d.key, d.body) + TextOf(d.rest));
    }
  }

  function Before(d: Doc): string {
    if d.Tail? then "" else d.plain + (Block(d.key, d.body) + Before(d.rest))
  }

  lemma {:induction false} LastPlainEnds(d: Doc, plain: string)
    requires Good(d)
    ensures TextOf(d) == Before(d) + LastPlain(d)
    ensures TextOf(WithLast(d, plain)) == Before(d) + plain
    ensures Before(d) == "" || Before(d)[|Before(d)| - 1] == '>'
    ensures Free(LastPlain(d))
    ensures Free(plain) ==> Good(WithLast(d, plain))
    ensures LastPlain(WithLast(d, plain)) == plain
  {
    hide Free, Block;
    if d.More? {
      LastPlainEnds(d.rest, plain);
      BlockEnds(d.key, d.body);
      var block := Block(d.key, d.body);
      EndOfThree(d.plain, block, Before(d.rest));
      Reassociate(block, Before(d.rest), LastPlain(d.rest));
      Reassociate(d.plain, block + Before(d.rest), LastPlain(d.rest));
      Reassociate(block, Before(d.rest), plain);
      Reassociate(d.plain, block + Before(d.rest), plain);
    } else {
      assert "" + plain == plain && "" + d.plain == d.plain;
    }
  }

  lemma EndOfThree(a: string, b: string, c: string)
    requires b != ""
    ensures a + (b + c) != ""
    ensures (a + (b + c))[|a + (b + c)| - 1] == if c == "" then b[|b| - 1] else c[|c| - 1]
  {}

  lemma StripRightInDoc(d: Doc)
    requires Good(d)
    ensures TextOf(StrippedRight(d)) == StripRight(Python, TextOf(d))
    ensures TextOf(Closed(d)) == StripRight(Python, TextOf(d)) + "\n"
  {
    hide Good, Free, TextOf, Before, WithLast;
    var right := StripRight(Python, LastPlain(d));
    LastPlainEnds(d, right);
    LastPlainEnds(d, right + "\n");
    StripRightOfConcat(Before(d), LastPlain(d));
    Reassociate(Before(d), right, "\n");
    if right == "" {
      assert Before(d) + right == Before(d);
    }
  }

  lemma {:induction false} FreeStripLeft(s: string)
    requires Free(s)
    ensures Free(StripLeft(Python, s))
  {
    hide Free;
    if s != "" && IsSpace(Python, s[0]) {
      FreePart(s, 1, |s|);
      assert s[1..|s|] == s[1..];
      FreeStripLeft(s[1..]);
    }
  }

  lemma {:induction false} FreeStripRight(s: string)
    requires Free(s)
    ensures Free(StripRight(Python, s))
  {
    hide Free;
    if s != "" && IsSpace(Python, s[|s| - 1]) {
      FreePart(s, 0, |s| - 1);
      FreeStripRight(s[..|s| - 1]);
    }
  }

  lemma StrippedIsGood(d: Doc)
    requires Good(d)
    ensures Good(StrippedLeft(d)) && Good(StrippedRight(d)) && Good(Closed(d))
  {
    hide Free;
    FreeStripLeft(d.plain);
    var last := LastPlain(d);
    LastPlainEnds(d, StripRight(Python, last));
    FreeStripRight(last);
    FreeOfAngles("\n");
    FreeAtLineFeed(StripRight(Python, last), "\n");
    LastPlainEnds(d, StripRight(Python, last) + "\n");
  }

  lemma HeadedIsGood(d: Doc)
    requires Good(d)
    ensures Good(HeadedDoc(d)) && TextOf(HeadedDoc(d)) == Headed(TextOf(d))
  {
    hide Free, Find;
    HeaderIsPlain();
    FreeOfAngles(HEADER);
    FreeAfter(HEADER + "\n\n", d.plain);
    if d.More? {
      Reassociate(HEADER + "\n\n", d.plain, Block(d.key, d.body) + TextOf(d.rest));
    }
  }

  lemma HeaderIsPlain()
    ensures forall i :: 0 <= i < |HEADER + "\n\n"| ==> (HEADER + "\n\n")[i] !in "<>"
    ensures forall i :: 0 <= i < |HEADER| ==> HEADER[i] !in "<>\n"
  {}

  // ---------- the blocks ----------

  predicate BodiesAre(d: Doc, key: string, body: string) {
    d.More? ==> (d.key == key ==> d.body == body) && BodiesAre(d.rest, key, body)
  }

  lemma {:induction false} ReplacedBlocks(d: Doc, key: string, body: string)
    ensures BodiesAre(Replaced(d, key, body), key, body)
    ensures forall other :: HasKey(Replaced(d, key, body), other) <==> HasKey(d, other)
    ensures forall other, b :: other != key ==>
            (BodiesAre(Replaced(d, key, body), other, b) <==> BodiesAre(d, other, b))
    ensures BodiesAre(d, key, body) ==> Replaced(d, key, body) == d
    ensures Good(d) && Free(body) ==> Good(Replaced(d, key, body))
  {
    hide Free;
    if d.More? {
      ReplacedBlocks(d.rest, key, body);
    }
  }

  lemma {:induction false} AppendedBlocks(d: Doc, key: string, body: string)
    requires !HasKey(d, key)
    ensures BodiesAre(Appended(d, key, body), key, body)
    ensures forall other :: HasKey(Appended(d, key, body), other) <==> HasKey(d, other) || other == key
    ensures forall other, b :: other != key ==>
            (BodiesAre(Appended(d, key, body), other, b) <==> BodiesAre(d, other, b))
    ensures Good(d) && Free(body) && key in KEYS ==> Good(Appended(d, key, body))
  {
    hide Free;
    if d.More? {
      AppendedBlocks(d.rest, key, body);
    } else {
      assert BodiesAre(Tail("\n"), key, body);
      FreeOfAngles("\n");
      FreeOfAngles("\n\n");
      if Free(d.plain) {
        FreeAtLineFeed(d.plain, "\n");
        FreeAtLineFeed(d.plain, "\n\n");
      }
      assert "\n" + "\n" == "\n\n" && "" + "\n" == "\n";
      assert d.plain + "" + "\n" == d.plain + "\n" && d.plain + "\n" + "\n" == d.plain + "\n\n";
    }
  }

  lemma UpsertedBlocks(d: Doc, key: string, body: string)
    requires Good(d) && key in KEYS && Free(body)
    ensures var u := Upserted(d, key, body);
            && Good(u)
            && HasKey(u, key) && BodiesAre(u, key, body)
            && (forall other :: HasKey(d, other) ==> HasKey(u, other))
            && (forall other, b :: other != key ==> (BodiesAre(u, other, b) <==> BodiesAre(d, other, b)))
            && (HasKey(d, key) && BodiesAre(d, key, body) ==> u == d)
  {
    hide Good, Free, HasKey, BodiesAre, Replaced, Appended;
    if HasKey(d, key) {
      ReplacedBlocks(d, key, body);
    } else {
      AppendedBlocks(d, key, body);
    }
  }

  ghost predicate HasBlocks(d: Doc, sections: Sections, n: nat)
    requires n <= |KEYS|
  {
    forall i :: 0 <= i < n ==> HasKey(d, KEYS[i]) && BodiesAre(d, KEYS[i], BodyFor(sections, i))
  }

  lemma {:induction false} FilledBlocks(d: Doc, sections: Sections, n: nat)
    requires Good(d) && CleanSections(sections) && n <= |KEYS|
    ensures var u := Filled(d, sections, n);
            && Good(u) && TextOf(u) == UpsertFirst(TextOf(d), sections, n)
            && HasBlocks(u, sections, n)
            && (HasBlocks(d, sections, |KEYS|) ==> u == d)
  {
    hide Good, Free, TextOf, HasKey, BodiesAre, Upsert, Upserted, Body, CleanItems;
    if n > 0 {
      FilledBlocks(d, sections, n - 1);
      var u, key, body := Filled(d, sections, n - 1), KEYS[n - 1], BodyFor(sections, n - 1);
      BodyIsFree(n - 1, ItemsFor(sections, key));
      UpsertInDoc(u, key, body);
      UpsertedBlocks(u, key, body);
      forall i | 0 <= i < n - 1 ensures KEYS[i] != key {
        KeysDiffer(n - 1);
        assert KEYS[i] in KEYS[..n - 1];
      }
    }
  }

  // The text a rendering returns is again well formed, and every managed block in it says what it should.
  lemma RenderedText(d: Doc, sections: Sections)
    requires Good(d) && CleanSections(sections)
    ensures var r := RenderedDoc(d, sections);
            TextOf(r) == Rendered(TextOf(d), sections) && Good(r) && HasBlocks(r, sections, |KEYS|)
  {
    hide Good, TextOf, CleanSections, StrippedLeft, StrippedRight, HeadedDoc,
      Headed, Filled, HasBlocks, Closed, UpsertFirst;
    StrippedIsGood(d);
    StripLeftInDoc(d);
    var l := StrippedLeft(d);
    StrippedIsGood(l);
    StripRightInDoc(l);
    var r := StrippedRight(l);
    HeadedIsGood(r);
    var h := HeadedDoc(r);
    FilledBlocks(h, sections, |KEYS|);
    var u := Filled(h, sections, |KEYS|);
    StrippedIsGood(u);
    StripRightInDoc(u);
    ClosedKeepsBlocks(u, sections);
  }

  lemma {:induction false} WithLastKeepsBlocks(d: Doc, plain: string)
    ensures forall key :: HasKey(WithLast(d, plain), key) <==> HasKey(d, key)
    ensures forall key, body :: BodiesAre(WithLast(d, plain), key, body) <==> BodiesAre(d, key, body)
  {
    if d.More? {
      WithLastKeepsBlocks(d.rest, plain);
    }
  }

  lemma ClosedKeepsBlocks(d: Doc, sections: Sections)
    requires HasBlocks(d, sections, |KEYS|)
    ensures HasBlocks(Closed(d), sections, |KEYS|) && HasBlocks(StrippedRight(d), sections, |KEYS|)
  {
    hide HasKey, BodiesAre, WithLast, Body;
    WithLastKeepsBlocks(d, StripRight(Python, LastPlain(d)) + "\n");
    WithLastKeepsBlocks(d, StripRight(Python, LastPlain(d)));
  }

  // ---------- reading back ----------

  lemma ReadsBlock(d: Doc, key: string, inner: string)
    requires Good(d) && key in KEYS && HasKey(d, key) && FirstBody(d, key) == "\n" + inner
    ensures ReadBlock(TextOf(d), key) == Some(inner)
  {
    hide Free, Start, End, TextOf, FirstBody, HasKey, Good, OccursAt, Find;
    var at, t := FindBlock(d, key);
    var rest := inner + End(key) + t;
    assert FirstBody(d, key) + End(key) + t == "\n" + rest;
    MarkerHere("\n", rest);
    SliceBeyond("\n", rest, 0);
    FirstBodyIsFree(d, key);
    FreePart("\n" + inner, 1, |inner| + 1);
    assert ("\n" + inner)[1..|inner| + 1] == inner;
    EndOfBlock(key, inner, t);
    assert rest[..|inner|] == inner;
  }

  lemma {:induction false} FirstBodyIsFree(d: Doc, key: string)
    requires Good(d) && HasKey(d, key)
    ensures Free(FirstBody(d, key))
  {
    if d.key != key {
      FirstBodyIsFree(d.rest, key);
    }
  }

  lemma {:induction false} FirstBodyIs(d: Doc, key: string, body: string)
    requires HasKey(d, key) && BodiesAre(d, key, body)
    ensures FirstBody(d, key) == body
  {
    if d.key != key {
      FirstBodyIs(d.rest, key, body);
    }
  }

  // Reading a rendered profile gives, for every section, its items trimmed and without the blank ones; and
  // the standard items where none are left.
  lemma ReadsBack(existing: string, sections: Sections, i: nat, standard: seq<string>)
    requires WellFormed(existing) && CleanSections(sections) && i < |KEYS|
    ensures var kept := Cleaned(ItemsFor(sections, KEYS[i]));
            ReadSection(Rendered(existing, sections), KEYS[i], standard) == if kept == [] then standard else kept
  {
    hide Good, TextOf, Rendered, RenderedDoc, Body, ItemsOf, SplitLines,
      Cleaned, ReadBlock, FirstBody, HasKey, CleanItems;
    var d :| Good(d) && TextOf(d) == existing;
    RenderedText(d, sections);
    var r := RenderedDoc(d, sections);
    var items := ItemsFor(sections, KEYS[i]);
    FirstBodyIs(r, KEYS[i], BodyFor(sections, i));
    BodyIs(TITLES[i], items);
    var inner := Body(TITLES[i], items)[1..];
    assert Body(TITLES[i], items) == "\n" + inner;
    ReadsBlock(r, KEYS[i], inner);
    BodyReads(i, items);
  }

  predicate Trimmed(items: seq<string>) {
    forall i :: 0 <= i < |items| ==> items[i] != "" && Strip(Python, items[i]) == items[i]
  }

  lemma {:induction false} CleanedIsSame(items: seq<string>)
    ensures |Cleaned(items)| <= |items|
    ensures Cleaned(items) == items <==> Trimmed(items)
  {
    hide Strip;
    if items != [] {
      var last := |items| - 1;
      CleanedIsSame(items[..last]);
      assert items == items[..last] + [items[last]];
      if Cleaned(items) == items {
        assert |Cleaned(items[..last])| <= last;
        assert Cleaned(items)[..last] == items[..last];
      }
    }
  }

  // A section comes back exactly as it went in if and only if its items are trimmed and not blank, and there
  // is at least one; or if it says no more than the standard section it is mistaken for.
  lemma RoundTrip(existing: string, sections: Sections, i: nat, standard: seq<string>)
    requires WellFormed(existing) && CleanSections(sections) && i < |KEYS|
    ensures var items := ItemsFor(sections, KEYS[i]);
            ReadSection(Rendered(existing, sections), KEYS[i], standard) == items <==>
            if Cleaned(items) == [] then items == standard else Trimmed(items)
  {
    hide *;
    ReadsBack(existing, sections, i, standard);
    CleanedIsSame(ItemsFor(sections, KEYS[i]));
  }

  // ---------- what stands outside the blocks ----------

  function Plains(d: Doc): (plains: seq<string>)
    ensures plains != []
  {
    if d.Tail? then [d.plain] else [d.plain] + Plains(d.rest)
  }

  function BlockKeys(d: Doc): seq<string> {
    if d.Tail? then [] else [d.key] + BlockKeys(d.rest)
  }

  // A text between two blocks is the same; at the outer ends of the whole, white space may differ.
  predicate SameAt(before: seq<string>, i: nat, plain: string)
    requires i < |before|
  {
    if |before| == 1 then Strip(Python, plain) == Strip(Python, before[i])
    else if i == 0 then StripLeft(Python, plain) == StripLeft(Python, before[i])
    else if i == |before| - 1 then StripRight(Python, plain) == StripRight(Python, before[i])
    else plain == before[i]
  }

  // What stood outside the blocks still does, and only white space follows.
  predicate SameOutside(before: seq<string>, after: seq<string>) {
    && |before| <= |after|
    && (forall i :: 0 <= i < |before| ==> SameAt(before, i, after[i]))
    && (forall i :: |before| <= i < |after| ==> Strip(Python, after[i]) == "")
  }

  lemma SameAtMeansSameStrip(before: seq<string>, i: nat, plain: string)
    requires i < |before| && SameAt(before, i, plain)
    ensures Strip(Python, plain) == Strip(Python, before[i])
  {
    hide StripLeft, StripRight;
    StripsCommute(plain);
    StripsCommute(before[i]);
  }

  lemma SameOutsideTransitive(a: seq<string>, b: seq<string>, c: seq<string>)
    requires SameOutside(a, b) && SameOutside(b, c)
    ensures SameOutside(a, c)
  {
    hide Strip, StripLeft, StripRight, SameAt;
    forall i | 0 <= i < |a| ensures SameAt(a, i, c[i]) {
      SameAtTransitive(a, b, i, c[i]);
    }
    forall i | |a| <= i < |c| ensures Strip(Python, c[i]) == "" {
      if i < |b| {
        SameAtMeansSameStrip(b, i, c[i]);
      }
    }
  }

  lemma SameAtTransitive(a: seq<string>, b: seq<string>, i: nat, plain: string)
    requires i < |a| <= |b| && SameAt(a, i, b[i]) && SameAt(b, i, plain)
    ensures SameAt(a, i, plain)
  {
    hide StripLeft, StripRight, Strip;
    SameAtMeansSameStrip(b, i, plain);
  }

  lemma {:induction false} ReplacedPlains(d: Doc, key: string, body: string)
    ensures Plains(Replaced(d, key, body)) == Plains(d)
    ensures BlockKeys(Replaced(d, key, body)) == BlockKeys(d)
  {
    if d.More? {
      ReplacedPlains(d.rest, key, body);
    }
  }

  lemma {:induction false} WithLastPlains(d: Doc, plain: string)
    ensures var n := |Plains(d)| - 1;
            && LastPlain(d) == Plains(d)[n]
            && Plains(WithLast(d, plain)) == Plains(d)[n := plain]
            && BlockKeys(WithLast(d, plain)) == BlockKeys(d)
  {
    if d.More? {
      WithLastPlains(d.rest, plain);
    }
  }

  lemma {:induction false} AppendedPlains(d: Doc, key: string, body: string)
    ensures var n := |Plains(d)| - 1; var p := Plains(d)[n];
            && Plains(Appended(d, key, body)) ==
               Plains(d)[n := p + (if p != "" && p[|p| - 1] == '\n' then "" else "\n") + "\n"] + ["\n"]
            && BlockKeys(Appended(d, key, body)) == BlockKeys(d) + [key]
  {
    if d.More? {
      AppendedPlains(d.rest, key, body);
    }
  }

  // ---------- the header and white space ----------

  lemma ContainsIs(text: string, part: string)
    ensures Contains(text, part) <==> exists i: int :: OccursAt(text, part, i)
  {}

  lemma HeaderShape()
    ensures |HEADER| == 14 && HEADER[0] == '#' && HEADER[13] == 'e'
  {}

  lemma HeaderAfterInk(c: char, s: string)
    requires c != '#'
    ensures Contains([c] + s, HEADER) <==> Contains(s, HEADER)
  {
    hide Find;
    HeaderShape();
    var text := [c] + s;
    ContainsIs(text, HEADER);
    ContainsIs(s, HEADER);
    if i: int :| OccursAt(text, HEADER, i) {
      OccursIn(text, HEADER, i);
      assert text[i..] == s[i - 1..];
      assert OccursAt(s, HEADER, i - 1);
    }
    if i: int :| OccursAt(s, HEADER, i) {
      assert text[i + 1..] == s[i..];
      assert OccursAt(text, HEADER, i + 1);
    }
  }

  lemma HeaderBeforeInk(s: string, c: char)
    requires c != 'e'
    ensures Contains(s + [c], HEADER) <==> Contains(s, HEADER)
  {
    hide Find;
    HeaderShape();
    var text := s + [c];
    ContainsIs(text, HEADER);
    ContainsIs(s, HEADER);
    if i: int :| OccursAt(text, HEADER, i) {
      OccursIn(text, HEADER, i);
      assert text[|text| - 1] == c && text[i + 13] == 'e';
      assert forall j :: 0 <= j < |HEADER| ==> s[i + j] == HEADER[j];
      OccursIf(s, HEADER, i);
    }
    if i: int :| OccursAt(s, HEADER, i) {
      OccursIn(s, HEADER, i);
      assert forall j :: 0 <= j < |HEADER| ==> text[i + j] == HEADER[j];
      OccursIf(text, HEADER, i);
    }
  }

  lemma {:induction false} HeaderInStripLeft(s: string)
    ensures Contains(StripLeft(Python, s), HEADER) <==> Contains(s, HEADER)
  {
    hide Contains, Find;
    if s != "" && IsSpace(Python, s[0]) {
      HeaderInStripLeft(s[1..]);
      HeaderAfterInk(s[0], s[1..]);
      assert [s[0]] + s[1..] == s;
    }
  }

  lemma {:induction false} HeaderInStripRight(s: string)
    ensures Contains(StripRight(Python, s), HEADER) <==> Contains(s, HEADER)
  {
    hide Contains, Find;
    if s != "" && IsSpace(Python, s[|s| - 1]) {
      HeaderInStripRight(s[..|s| - 1]);
      HeaderBeforeInk(s[..|s| - 1], s[|s| - 1]);
      assert s[..|s| - 1] + [s[|s| - 1]] == s;
    }
  }

  lemma LineFeedAtEnd(s: string)
    ensures StripRight(Python, s + "\n") == StripRight(Python, s)
    ensures Strip(Python, s + "\n") == Strip(Python, s)
  {
    hide IsSpace, StripLeft, StripRight;
    LineFeedIsNothing();
    StripRightOfConcat(s, "\n");
    StripsCommute(s);
    StripsCommute(s + "\n");
  }

  lemma LineFeedIsNothing()
    ensures StripRight(Python, "\n") == "" && StripLeft(Python, "\n") == "" && Strip(Python, "\n") == ""
  {
    assert "\n"[..0] == "" && "\n"[1..] == "";
  }

  lemma StripLeftTwice(s: string)
    ensures StripLeft(Python, StripLeft(Python, s)) == StripLeft(Python, s)
  {
    StripLeftIsInked(s);
  }

  lemma HeaderInStrip(s: string)
    ensures Contains(Strip(Python, s), HEADER) <==> Contains(s, HEADER)
  {
    HeaderInStripLeft(s);
    HeaderInStripRight(StripLeft(Python, s));
  }

  // The header is found outside the blocks afterwards exactly if it was before.
  lemma HeaderStaysOutside(before: seq<string>, after: seq<string>)
    requires SameOutside(before, after)
    ensures forall i :: 0 <= i < |before| ==> (Contains(after[i], HEADER) <==> Contains(before[i], HEADER))
    ensures forall i :: |before| <= i < |after| ==> !Contains(after[i], HEADER)
  {
    hide Contains, Strip, SameAt;
    NothingContainsNoHeader();
    forall i | 0 <= i < |after|
      ensures if i < |before| then Contains(after[i], HEADER) <==> Contains(before[i], HEADER)
              else !Contains(after[i], HEADER)
    {
      HeaderInStrip(after[i]);
      if i < |before| {
        HeaderInStrip(before[i]);
        SameAtMeansSameStrip(before, i, after[i]);
      }
    }
  }

  // ---------- rendering keeps what stands outside ----------

  lemma UpsertedOutside(d: Doc, key: string, body: string)
    ensures SameOutside(Plains(d), Plains(Upserted(d, key, body)))
    ensures BlockKeys(Upserted(d, key, body)) == BlockKeys(d) + if HasKey(d, key) then [] else [key]
  {
    hide SameOutside, Plains, BlockKeys, Replaced, Appended, HasKey, StripLeft, StripRight, Strip;
    ReplacedPlains(d, key, body);
    AppendedPlains(d, key, body);
    SameOutsideReflexive(Plains(d));
    var n := |Plains(d)| - 1;
    var p := Plains(d)[n];
    LineFeedAtEnd(p);
    LineFeedAtEnd(p + "\n");
    assert p + "" == p;
    OuterChange(Plains(d), n, p + "\n");
    OuterChange(Plains(d), n, p + "\n" + "\n");
    BlankFollows(Plains(d), Plains(d)[n := p + "\n"]);
    BlankFollows(Plains(d), Plains(d)[n := p + "\n" + "\n"]);
  }

  lemma BlankFollows(before: seq<string>, after: seq<string>)
    requires SameOutside(before, after)
    ensures SameOutside(before, after + ["\n"])
  {
    hide Strip, SameAt;
    LineFeedIsNothing();
  }

  lemma {:induction false} FilledOutside(d: Doc, sections: Sections, n: nat)
    requires n <= |KEYS|
    ensures SameOutside(Plains(d), Plains(Filled(d, sections, n)))
    ensures BlockKeys(d) <= BlockKeys(Filled(d, sections, n))
  {
    hide SameOutside, Plains, BlockKeys, Upserted, Body;
    if n == 0 {
      SameOutsideReflexive(Plains(d));
    } else {
      FilledOutside(d, sections, n - 1);
      var u := Filled(d, sections, n - 1);
      UpsertedOutside(u, KEYS[n - 1], BodyFor(sections, n - 1));
      SameOutsideTransitive(Plains(d), Plains(u), Plains(Filled(d, sections, n)));
    }
  }

  lemma SameOutsideReflexive(a: seq<string>)
    ensures SameOutside(a, a)
  {}

  lemma OuterChange(a: seq<string>, i: nat, p: string)
    requires i < |a| && (i == 0 || i == |a| - 1) && SameAt(a, i, p)
    ensures SameOutside(a, a[i := p])
  {
    hide Strip, StripLeft, StripRight;
  }

  lemma WithFirstPlains(d: Doc, plain: string)
    ensures Plains(WithFirst(d, plain)) == Plains(d)[0 := plain] && BlockKeys(WithFirst(d, plain)) == BlockKeys(d)
    ensures Plains(d)[0] == d.plain
  {}

  lemma StrippedOutside(d: Doc)
    ensures SameOutside(Plains(d), Plains(StrippedLeft(d))) && BlockKeys(StrippedLeft(d)) == BlockKeys(d)
    ensures SameOutside(Plains(d), Plains(StrippedRight(d))) && BlockKeys(StrippedRight(d)) == BlockKeys(d)
    ensures SameOutside(Plains(d), Plains(Closed(d))) && BlockKeys(Closed(d)) == BlockKeys(d)
  {
    hide StripLeft, StripRight, LastPlain, WithFirst, WithLast, SameOutside, Plains, BlockKeys;
    var left := StripLeft(Python, d.plain);
    StripLeftTwice(d.plain);
    WithFirstPlains(d, left);
    OuterChange(Plains(d), 0, left);
    var n, last := |Plains(d)| - 1, LastPlain(d);
    var right := StripRight(Python, last);
    StripRightTwice(last);
    StripsCommute(last);
    StripsCommute(right);
    LineFeedAtEnd(right);
    WithLastPlains(d, right);
    WithLastPlains(d, right + "\n");
    OuterChange(Plains(d), n, right);
    OuterChange(Plains(d), n, right + "\n");
  }

  // The texts outside the blocks, with the header in front if it has to be added.
  function WithHeader(before: seq<string>): seq<string>
    requires before != []
  {
    before[0 := HEADER + "\n\n" + StripLeft(Python, before[0])]
  }

  /**
   The header gets in front of the first text if the whole has none, and nothing else changes outside the
   blocks but white space at the outer ends.
   */
  lemma RenderedOutside(d: Doc, sections: Sections)
    requires Good(d)
    ensures var before, after := Plains(d), Plains(RenderedDoc(d, sections));
            var added := !Contains(Strip(Python, TextOf(d)), HEADER);
            SameOutside(if added then WithHeader(before) else before, after)
    ensures BlockKeys(d) <= BlockKeys(RenderedDoc(d, sections))
  {
    hide Good, Contains, SameOutside, WithHeader, Plains, BlockKeys, StrippedLeft, StrippedRight, Closed,
      Filled, HeadedDoc, StripLeft, StripRight, TextOf;
    var l := StrippedLeft(d);
    var r := StrippedRight(l);
    var h := HeadedDoc(r);
    var u := Filled(h, sections, |KEYS|);
    StrippedIsGood(d);
    StripLeftInDoc(d);
    StripRightInDoc(l);
    StrippedOutside(d);
    StrippedOutside(l);
    SameOutsideTransitive(Plains(d), Plains(l), Plains(r));
    HeadedOutside(d);
    FilledOutside(h, sections, |KEYS|);
    StrippedOutside(u);
    SameOutsideTransitive(Plains(h), Plains(u), Plains(Closed(u)));
    var start := if Contains(TextOf(r), HEADER) then Plains(d) else WithHeader(Plains(d));
    SameOutsideTransitive(start, Plains(h), Plains(Closed(u)));
  }

  lemma HeadedOutside(d: Doc)
    ensures var r := StrippedRight(StrippedLeft(d));
            var h := HeadedDoc(r);
            && (Contains(TextOf(r), HEADER) ==> h == r)
            && (!Contains(TextOf(r), HEADER) ==> SameOutside(WithHeader(Plains(d)), Plains(h)))
            && BlockKeys(h) == BlockKeys(d)
  {
    hide Contains, SameOutside, WithFirst, WithLast, Plains, BlockKeys, StripLeft, StripRight, TextOf, Strip, LastPlain;
    var l := StrippedLeft(d);
    var r := StrippedRight(l);
    var n, first := |Plains(d)| - 1, StripLeft(Python, d.plain);
    WithFirstPlains(d, first);
    WithLastPlains(l, StripRight(Python, LastPlain(l)));
    WithFirstPlains(r, HEADER + "\n\n" + r.plain);
    NothingContainsNoHeader();
    if TextOf(r) == "" {
      EmptyText(r);
      PlainsOfTail("");
      PlainsOfTail(HEADER);
      assert |Plains(d)| == 1 && Plains(r)[0] == StripRight(Python, first);
      HeaderAlone(first);
      OuterChange(WithHeader(Plains(d)), 0, HEADER);
      assert WithHeader(Plains(d))[0 := HEADER] == [HEADER];
    } else if !Contains(TextOf(r), HEADER) {
      HeaderInFront(Plains(d));
    }
  }

  lemma PlainsOfTail(p: string)
    ensures Plains(Tail(p)) == [p] && BlockKeys(Tail(p)) == []
  {}

  lemma HeaderInFront(plains: seq<string>)
    requires plains != []
    ensures var n, l := |plains| - 1, plains[0 := StripLeft(Python, plains[0])];
            var r := l[n := StripRight(Python, l[n])];
            SameOutside(WithHeader(plains), r[0 := HEADER + "\n\n" + r[0]])
  {
    hide Strip, StripLeft, StripRight, SameOutside;
    var n, first := |plains| - 1, StripLeft(Python, plains[0]);
    var start := WithHeader(plains);
    if n == 0 {
      HeaderStrips(first);
      var front := HEADER + "\n\n" + StripRight(Python, first);
      OuterChange(start, 0, front);
      assert plains[0 := first] == [first] && [first][0 := StripRight(Python, first)] == [StripRight(Python, first)];
      assert start[0 := front] == [front] == [StripRight(Python, first)][0 := front];
    } else {
      StripRightTwice(plains[n]);
      var right := StripRight(Python, plains[n]);
      OuterChange(start, n, right);
      assert start[n := right] == plains[0 := first][n := right][0 := HEADER + "\n\n" + first];
    }
  }

  lemma HeaderStrips(s: string)
    ensures Strip(Python, HEADER + "\n\n" + StripRight(Python, s)) == Strip(Python, HEADER + "\n\n" + s)
  {
    hide StripRight;
    HeaderShape();
    var a := HEADER + "\n\n";
    assert (a + s)[0] == '#' && (a + StripRight(Python, s))[0] == '#';
    StripRightOfConcat(a, s);
    StripRightOfConcat(a, StripRight(Python, s));
    StripRightTwice(s);
  }

  lemma HeaderAlone(s: string)
    requires StripRight(Python, s) == ""
    ensures Strip(Python, HEADER) == Strip(Python, HEADER + "\n\n" + s)
  {
    hide StripRight;
    HeaderStrips(s);
    LineFeedAtEnd(HEADER);
    LineFeedAtEnd(HEADER + "\n");
    assert HEADER + "\n\n" + "" == (HEADER + "\n") + "\n";
  }

  lemma NothingContainsNoHeader()
    ensures !Contains("", HEADER)
  {
    HeaderShape();
  }

  lemma EmptyText(d: Doc)
    requires TextOf(d) == ""
    ensures d == Tail("")
  {}

  lemma HeaderIsThere(t: string)
    ensures Contains(HEADER + t, HEADER)
  {
    MarkerHere(HEADER, t);
  }

  // ---------- rendering twice ----------

  predicate Inked(s: string) {
    s != "" && !IsSpace(Python, s[0])
  }

  lemma {:induction false} StripLeftIsInked(s: string)
    ensures StripLeft(Python, s) == "" || Inked(StripLeft(Python, s))
  {
    if s != "" {
      StripLeftIsInked(s[1..]);
    }
  }

  lemma {:induction false} StripRightIsPrefix(s: string)
    ensures StripRight(Python, s) <= s
    ensures Inked(s) ==> Inked(StripRight(Python, s))
  {
    if s != "" {
      var front := s[..|s| - 1];
      StripRightIsPrefix(front);
      assert front + [s[|s| - 1]] == s;
      if Inked(s) && IsSpace(Python, s[|s| - 1]) {
        assert front[0] == s[0];
      }
    }
  }

  // The last strip of a rendering removes the line feed it ended with.
  lemma StripUndoesClosing(y: string)
    requires Inked(y) && StripRight(Python, y) == y
    ensures Strip(Python, y + "\n") == y
  {
    assert (y + "\n")[0] == y[0];
    StripRightOfConcat(y, "\n");
    assert "\n"[..0] == "";
    assert StripRight(Python, "\n") == "";
  }

  lemma TextStartsWith(d: Doc)
    requires Good(d) && Inked(TextOf(d))
    ensures d.plain != "" ==> TextOf(d)[0] == d.plain[0]
    ensures d.plain == "" ==> d.More? && TextOf(d)[0] == '<'
  {
    if d.More? {
      BlockStarts(d.key, d.body, TextOf(d.rest));
    }
  }

  lemma UpsertedIsInked(d: Doc, key: string, body: string)
    requires Good(d) && Good(Upserted(d, key, body)) && Inked(TextOf(d))
    ensures Inked(TextOf(Upserted(d, key, body)))
  {
    hide Free, Block, HasKey;
    TextStartsWith(d);
    var u := Upserted(d, key, body);
    if u.More? {
      BlockStarts(u.key, u.body, TextOf(u.rest));
    }
  }

  lemma {:induction false} FilledIsInked(d: Doc, sections: Sections, n: nat)
    requires Good(d) && CleanSections(sections) && n <= |KEYS| && Inked(TextOf(d))
    ensures Inked(TextOf(Filled(d, sections, n)))
  {
    hide Good, TextOf, CleanSections, Upserted, UpsertFirst, Inked, BodyFor, HasBlocks, ItemsFor;
    if n > 0 {
      FilledIsInked(d, sections, n - 1);
      FilledBlocks(d, sections, n - 1);
      FilledBlocks(d, sections, n);
      UpsertedIsInked(Filled(d, sections, n - 1), KEYS[n - 1], BodyFor(sections, n - 1));
    }
  }

  lemma HeadedIsInked(t: string)
    requires t == "" || Inked(t)
    ensures Inked(Headed(t))
  {
    HeaderShape();
    assert (HEADER + "\n\n" + t)[0] == '#';
  }

  // A rendered text without its last line feed: what the next rendering starts from.
  lemma RenderedBeginsAs(existing: string, sections: Sections) returns (y: Doc)
    requires WellFormed(existing) && CleanSections(sections)
    ensures Good(y) && HasBlocks(y, sections, |KEYS|)
    ensures Inked(TextOf(y)) && StripRight(Python, TextOf(y)) == TextOf(y)
    ensures Rendered(existing, sections) == TextOf(y) + "\n"
  {
    hide Good, TextOf, CleanSections, StrippedLeft, StrippedRight, HeadedDoc, Headed,
      Filled, HasBlocks, Inked, StripRight, StripLeft;
    var d :| Good(d) && TextOf(d) == existing;
    StrippedIsGood(d);
    StripLeftInDoc(d);
    var l := StrippedLeft(d);
    StrippedIsGood(l);
    StripRightInDoc(l);
    var r := StrippedRight(l);
    StripLeftIsInked(existing);
    StripRightIsPrefix(StripLeft(Python, existing));
    StripOfNothing();
    HeadedIsGood(r);
    HeadedIsInked(TextOf(r));
    FilledBlocks(HeadedDoc(r), sections, |KEYS|);
    FilledIsInked(HeadedDoc(r), sections, |KEYS|);
    var u := Filled(HeadedDoc(r), sections, |KEYS|);
    StrippedIsGood(u);
    StripRightInDoc(u);
    ClosedKeepsBlocks(u, sections);
    StripRightIsPrefix(TextOf(u));
    StripRightTwice(TextOf(u));
    y := StrippedRight(u);
  }

  lemma StripOfNothing()
    ensures StripRight(Python, "") == ""
  {}

  // A second rendering of the same sections changes nothing exactly if the first one left the header in the
  // text; otherwise it adds the header.
  lemma RenderedTwice(existing: string, sections: Sections)
    requires WellFormed(existing) && CleanSections(sections)
    ensures var once := Rendered(existing, sections);
            && WellFormed(once)
            && (Rendered(once, sections) == once <==> Contains(once, HEADER))
            && Contains(Rendered(once, sections), HEADER)
  {
    hide Good, TextOf, CleanSections, HeadedDoc, Headed, Filled, HasBlocks, Inked, StripRight, Contains, Rendered;
    var y := RenderedBeginsAs(existing, sections);
    var once := Rendered(existing, sections);
    RenderedIsWellFormed(existing, sections);
    HeaderBeforeInk(TextOf(y), '\n');
    HeadedTwice(y, sections);
  }

  lemma RenderedIsWellFormed(existing: string, sections: Sections)
    requires WellFormed(existing) && CleanSections(sections)
    ensures WellFormed(Rendered(existing, sections))
  {
    hide Good, TextOf, CleanSections, RenderedDoc, Rendered, HasBlocks;
    var d :| Good(d) && TextOf(d) == existing;
    RenderedText(d, sections);
  }

  lemma WithFirstKeepsBlocks(d: Doc, plain: string, sections: Sections)
    requires HasBlocks(d, sections, |KEYS|)
    ensures HasBlocks(WithFirst(d, plain), sections, |KEYS|)
  {
    hide Body;
    assert HasKey(d, KEYS[0]);
    forall i | 0 <= i < |KEYS|
      ensures HasKey(WithFirst(d, plain), KEYS[i]) && BodiesAre(WithFirst(d, plain), KEYS[i], BodyFor(sections, i))
    {
      assert HasKey(d, KEYS[i]) && BodiesAre(d, KEYS[i], BodyFor(sections, i));
    }
  }

  lemma HeadedTwice(y: Doc, sections: Sections)
    requires Good(y) && HasBlocks(y, sections, |KEYS|) && CleanSections(sections)
    requires Inked(TextOf(y)) && StripRight(Python, TextOf(y)) == TextOf(y)
    ensures var once := TextOf(y) + "\n";
            && (Rendered(once, sections) == once <==> Contains(TextOf(y), HEADER))
            && Contains(Rendered(once, sections), HEADER)
  {
    hide Good, TextOf, CleanSections, Filled, HasBlocks, StripRight, StripLeft, Contains, UpsertFirst, HEADER;
    var text := TextOf(y);
    StripUndoesClosing(text);
    HeadedIsGood(y);
    var h := HeadedDoc(y);
    if Contains(text, HEADER) {
      FilledBlocks(y, sections, |KEYS|);
      HeaderBeforeInk(text, '\n');
    } else {
      WithFirstKeepsBlocks(y, HEADER + "\n\n" + y.plain, sections);
      FilledBlocks(h, sections, |KEYS|);
      StripRightOfConcat(HEADER + "\n\n", text);
      HeaderIsThere("\n\n" + text + "\n");
      assert HEADER + ("\n\n" + text + "\n") == HEADER + "\n\n" + text + "\n";
    }
  }

  lemma {:induction false} HeaderInDoc(d: Doc)
    requires Good(d)
    ensures Contains(TextOf(d), HEADER) <==>
            (exists p :: p in Plains(d) && Contains(p, HEADER)) || (exists b :: b in Bodies(d) && Contains(b, HEADER))
  {
    hide Contains, Free, Block;
    if d.More? {
      HeaderInDoc(d.rest);
      KeyMarkers(d.key);
      BlockStarts(d.key, d.body, TextOf(d.rest));
      HeaderIsPlain();
      HeaderAcross(d.plain, Block(d.key, d.body) + TextOf(d.rest));
      HeaderInBlock(d.key, d.body, TextOf(d.rest));
      assert Plains(d) == [d.plain] + Plains(d.rest) && Bodies(d) == [d.body] + Bodies(d.rest);
    }
  }

  function Bodies(d: Doc): seq<string> {
    if d.Tail? then [] else [d.body] + Bodies(d.rest)
  }

  lemma HeaderAcross(a: string, t: string)
    requires t != "" && t[0] !in HEADER
    ensures Contains(a + t, HEADER) <==> Contains(a, HEADER) || Contains(t, HEADER)
  {
    hide Find;
    ContainsIs(a + t, HEADER);
    ContainsIs(a, HEADER);
    ContainsIs(t, HEADER);
    if i: int :| OccursAt(a + t, HEADER, i) {
      OccursIn(a + t, HEADER, i);
      if i < |a| {
        CrossingMeets(a, t, HEADER, i);
        OccursIf(a, HEADER, i);
      } else {
        assert (a + t)[i..] == t[i - |a|..];
        assert OccursAt(t, HEADER, i - |a|);
      }
    }
    if i: int :| OccursAt(a, HEADER, i) {
      assert (a + t)[i..] == a[i..] + t;
      assert OccursAt(a + t, HEADER, i);
    }
    if i: int :| OccursAt(t, HEADER, i) {
      assert (a + t)[|a| + i..] == t[i..];
      assert OccursAt(a + t, HEADER, |a| + i);
    }
  }

  lemma {:induction false} HeaderAfterMarker(m: string, t: string)
    requires forall i :: 0 <= i < |m| ==> m[i] != '#'
    ensures Contains(m + t, HEADER) <==> Contains(t, HEADER)
  {
    hide Contains;
    if m == "" {
      assert m + t == t;
    } else {
      HeaderAfterMarker(m[1..], t);
      HeaderAfterInk(m[0], m[1..] + t);
      assert [m[0]] + (m[1..] + t) == m + t;
    }
  }

  lemma HeaderInBlock(key: string, body: string, t: string)
    requires key in KEYS
    ensures Contains(Block(key, body) + t, HEADER) <==> Contains(body, HEADER) || Contains(t, HEADER)
  {
    hide Contains, IsMarker, Start, End;
    KeyMarkers(key);
    var s, e := Start(key), End(key);
    MarkerShape(s);
    MarkerShape(e);
    HeaderIsPlain();
    HeaderAfterMarker(e, t);
    HeaderAcross(body, e + t);
    HeaderAfterMarker(s, body + (e + t));
    assert Block(key, body) + t == s + (body + (e + t));
  }

  lemma {:induction false} BodiesOfFilled(d: Doc, sections: Sections)
    requires Good(d) && HasBlocks(d, sections, |KEYS|)
    ensures forall b :: b in Bodies(d) <==> exists i :: 0 <= i < |KEYS| && b == BodyFor(sections, i)
  {
    hide Good, Body;
    forall b ensures b in Bodies(d) <==> exists i :: 0 <= i < |KEYS| && b == BodyFor(sections, i) {
      if b in Bodies(d) {
        var key := BodyHasKey(d, b);
        var i :| 0 <= i < |KEYS| && KEYS[i] == key;
        BodyIsThat(d, key, BodyFor(sections, i), b);
      }
      if i :| 0 <= i < |KEYS| && b == BodyFor(sections, i) {
        KeyHasBody(d, KEYS[i], b);
      }
    }
  }

  predicate HasBlock(d: Doc, key: string, body: string) {
    d.More? && ((d.key == key && d.body == body) || HasBlock(d.rest, key, body))
  }

  lemma {:induction false} BodyHasKey(d: Doc, b: string) returns (key: string)
    requires Good(d) && b in Bodies(d)
    ensures key in KEYS && HasBlock(d, key, b)
  {
    if d.body == b {
      key := d.key;
    } else {
      key := BodyHasKey(d.rest, b);
    }
  }

  lemma {:induction false} BodyIsThat(d: Doc, key: string, body: string, b: string)
    requires BodiesAre(d, key, body) && HasBlock(d, key, b)
    ensures b == body
  {
    if !(d.key == key && d.body == b) {
      BodyIsThat(d.rest, key, body, b);
    }
  }

  lemma {:induction false} KeyHasBody(d: Doc, key: string, body: string)
    requires HasKey(d, key) && BodiesAre(d, key, body)
    ensures body in Bodies(d)
  {
    if d.key != key {
      KeyHasBody(d.rest, key, body);
    }
  }

  // What a caller can see beforehand: rendering is idempotent exactly if the header was missing (and so is
  // added), stands outside the managed blocks, or is in what one of the blocks is going to say.
  lemma RenderingIsIdempotent(d: Doc, sections: Sections)
    requires Good(d) && CleanSections(sections)
    ensures var once := Rendered(TextOf(d), sections);
            Rendered(once, sections) == once <==>
            ( || !Contains(TextOf(d), HEADER)
              || (exists p :: p in Plains(d) && Contains(p, HEADER))
              || (exists i :: 0 <= i < |KEYS| && Contains(BodyFor(sections, i), HEADER)))
  {
    hide Good, TextOf, CleanSections, HasBlocks, Contains, Plains, Bodies,
      Rendered, RenderedDoc, BodyFor, Strip, SameOutside;
    var r := RenderedDoc(d, sections);
    RenderedText(d, sections);
    RenderedTwice(TextOf(d), sections);
    HeaderInDoc(r);
    BodiesOfFilled(r, sections);
    HeaderInStrip(TextOf(d));
    HeaderOutside(d, sections);
  }

  lemma HeaderOutside(d: Doc, sections: Sections)
    requires Good(d)
    ensures var before, after := Plains(d), Plains(RenderedDoc(d, sections));
            if !Contains(Strip(Python, TextOf(d)), HEADER) then exists p :: p in after && Contains(p, HEADER)
            else (exists p :: p in after && Contains(p, HEADER)) <==> (exists p :: p in before && Contains(p, HEADER))
  {
    hide Good, TextOf, Contains, Plains, RenderedDoc, Strip, SameOutside;
    RenderedOutside(d, sections);
    var before, after := Plains(d), Plains(RenderedDoc(d, sections));
    if Contains(Strip(Python, TextOf(d)), HEADER) {
      HeaderStaysOutside(before, after);
      OutsideIsLonger(before, after);
      if p :| p in after && Contains(p, HEADER) {
        var i :| 0 <= i < |after| && after[i] == p;
        assert before[i] in before;
      }
      if p :| p in before && Contains(p, HEADER) {
        var i :| 0 <= i < |before| && before[i] == p;
        assert after[i] in after;
      }
    } else {
      var start := WithHeader(before);
      HeaderStaysOutside(start, after);
      OutsideIsLonger(start, after);
      HeaderIsThere("\n\n" + StripLeft(Python, before[0]));
      assert start[0] == HEADER + ("\n\n" + StripLeft(Python, before[0]));
      assert after[0] in after;
    }
  }

  lemma OutsideIsLonger(before: seq<string>, after: seq<string>)
    requires SameOutside(before, after)
    ensures |before| <= |after|
  {}

  // A text whose only header stands inside a managed block loses it, and the second rendering adds it.
  lemma HeaderInBlockIsLost(sections: Sections)
    requires CleanSections(sections)
    requires forall i, item :: 0 <= i < |KEYS| && item in ItemsFor(sections, KEYS[i]) ==> 'U' !in item
    ensures var text := Block("style", "\n" + HEADER + "\n");
            var once := Rendered(text, sections);
            WellFormed(text) && Rendered(once, sections) != once
  {
    hide Contains, Block, CleanSections, BodyFor, Rendered, ItemsFor;
    forall i | 0 <= i < |KEYS| ensures !Contains(BodyFor(sections, i), HEADER) {
      NoHeaderInBody(sections, i);
    }
    var body := "\n" + HEADER + "\n";
    var d := More("", "style", body, Tail(""));
    assert TextOf(d) == Block("style", body);
    HeaderIsPlain();
    HeaderInBlockOnly(body);
    FreeOfAngles("");
    FreeOfAngles(body);
    assert "style" in KEYS;
    PlainsOfTail("");
    assert Plains(d) == ["", ""];
    NothingContainsNoHeader();
    HeaderInDoc(d);
    assert Bodies(d) == [body] + [] && body in Bodies(d);
    RenderingIsIdempotent(d, sections);
  }

  lemma NoHeaderInBody(sections: Sections, i: nat)
    requires i < |KEYS| && forall item :: item in ItemsFor(sections, KEYS[i]) ==> 'U' !in item
    ensures !Contains(BodyFor(sections, i), HEADER)
  {
    hide Body, Find;
    assert 'U' !in TITLES[i];
    NotInBody('U', i, ItemsFor(sections, KEYS[i]));
    assert HEADER[2] == 'U';
    if Contains(BodyFor(sections, i), HEADER) {
      PartIsInText(BodyFor(sections, i), HEADER, 2);
    }
  }

  lemma PartIsInText(text: string, part: string, k: nat)
    requires Contains(text, part) && k < |part|
    ensures part[k] in text
  {
    var at :| OccursAt(text, part, at);
    OccursIn(text, part, at);
    assert text[at + k] == part[k];
  }

  lemma HeaderInBlockOnly(body: string)
    requires body == "\n" + HEADER + "\n"
    ensures Contains(body, HEADER) && forall i :: 0 <= i < |body| ==> body[i] != '<'
  {
    HeaderIsThere("\n");
    HeaderAfterInk('\n', HEADER + "\n");
    assert body == ['\n'] + (HEADER + "\n");
  }

  // An empty section reads back as the standard one.
  lemma EmptySectionIsNotRead(existing: string, sections: Sections, i: nat, standard: seq<string>)
    requires WellFormed(existing) && CleanSections(sections) && i < |KEYS|
    requires ItemsFor(sections, KEYS[i]) == [] && standard != []
    ensures ReadSection(Rendered(existing, sections), KEYS[i], standard) == standard != ItemsFor(sections, KEYS[i])
  {
    hide Rendered, CleanSections, ReadSection;
    ReadsBack(existing, sections, i, standard);
  }
}
