/**
 The two implementations of chunk_text, in Python (sera/hotpaths.py) and Rust (sera-rust/src/lib.rs),
 against one specification.
 */
module ChunkText {
  import opened Text

  const BREAK := "\n\n"

  // A chunk fits, or it is one word that is longer than the bound by itself.
  predicate Fits(lang: Language, chunk: string, maxBytes: int) {
    Utf8Length(chunk) <= maxBytes || IsWord(lang, chunk)
  }

  predicate AllFit(lang: Language, chunks: seq<string>, maxBytes: int) {
    forall i :: 0 <= i < |chunks| ==> Fits(lang, chunks[i], maxBytes)
  }

  /**
   What both promise: the words of the chunks, in order, are the words of the text, and every chunk fits.
   */
  predicate IsChunking(lang: Language, text: string, maxBytes: int, chunks: seq<string>) {
    WordsOfAll(lang, chunks) == Words(lang, text) && AllFit(lang, chunks, maxBytes)
  }

  lemma FitsOneMore(lang: Language, chunks: seq<string>, chunk: string, maxBytes: int)
    requires AllFit(lang, chunks, maxBytes) && Fits(lang, chunk, maxBytes)
    ensures AllFit(lang, chunks + [chunk], maxBytes)
  {}

  lemma SeparatorsAreBlank(lang: Language)
    ensures IsBlank(lang, " ") && IsBlank(lang, BREAK) && Utf8Length(" ") == 1 && Utf8Length(BREAK) == 2
  {
    assert BREAK[1..] == "\n" && "\n"[1..] == "" && " "[1..] == "";
  }

  lemma JoinedLength(separator: string, parts: seq<string>, part: string)
    ensures Utf8Length(Join(separator, parts + [part]))
         == Utf8Length(part) + if parts == [] then 0 else Utf8Length(Join(separator, parts)) + Utf8Length(separator)
  {
    JoinOneMore(separator, parts, part);
    if parts != [] {
      Utf8LengthOfConcat(Join(separator, parts), separator);
      Utf8LengthOfConcat(Join(separator, parts) + separator, part);
    }
  }

  lemma WordsOfParts(lang: Language, a: seq<string>, b: seq<string>, part: string)
    ensures WordsOfAll(lang, a) + WordsOfAll(lang, b + [part]) ==
            (WordsOfAll(lang, a) + WordsOfAll(lang, b)) + Words(lang, part)
  {
    WordsOfOneMore(lang, b, part);
  }

  // ---------- Python ----------

  // A buffer of parts to be joined, with the running byte count the code keeps of it.
  predicate BufferFits(lang: Language, separator: string, parts: seq<string>, bytes: int, maxBytes: int) {
    if parts == [] then bytes == 0
    else Utf8Length(Join(separator, parts)) <= bytes && Fits(lang, Join(separator, parts), maxBytes)
  }

  lemma BufferGrows(lang: Language, separator: string, parts: seq<string>, part: string, bytes: int, maxBytes: int)
    requires BufferFits(lang, separator, parts, bytes, maxBytes)
    requires parts == [] ==> Fits(lang, part, maxBytes)
    requires parts != [] ==> bytes + Utf8Length(separator) + Utf8Length(part) <= maxBytes
    ensures forall bytes' ::
      bytes + (if parts == [] then 0 else Utf8Length(separator)) + Utf8Length(part) <= bytes'
      ==> BufferFits(lang, separator, parts + [part], bytes', maxBytes)
  {
    JoinedLength(separator, parts, part);
    JoinOneMore(separator, parts, part);
  }

  lemma FlushKeepsWords(lang: Language, separator: string, chunks: seq<string>, parts: seq<string>)
    requires IsBlank(lang, separator)
    ensures WordsOfAll(lang, chunks + [Join(separator, parts)]) == WordsOfAll(lang, chunks) + WordsOfAll(lang, parts)
  {
    WordsOfOneMore(lang, chunks, Join(separator, parts));
    JoinKeepsWords(lang, separator, parts);
  }

  // ---------- how full the chunks are ----------

  // The chunk begins with the first word of a paragraph that reaches the bound by itself.
  predicate StartsOversize(lang: Language, text: string, maxBytes: int, chunk: string) {
    exists p :: 0 <= p < |Split(text, BREAK)|
        && OversizeBegins(lang, Strip(lang, Split(text, BREAK)[p]), maxBytes, chunk)
  }

  predicate OversizeBegins(lang: Language, para: string, maxBytes: int, chunk: string) {
    Utf8Length(para) >= maxBytes && Words(lang, para) != [] && Words(lang, chunk) != []
    && Words(lang, chunk)[0] == Words(lang, para)[0]
  }

  /**
   Neighbours that together would leave room for the separators, which may be counted twice, are one chunk, unless an
   oversize paragraph begins with the second.
   */
  predicate Tight(lang: Language, text: string, maxBytes: int, chunks: seq<string>) {
    forall i :: 0 < i < |chunks| ==> TooMuch(lang, text, maxBytes, chunks[i - 1], chunks[i])
  }

  predicate TooMuch(lang: Language, text: string, maxBytes: int, a: string, b: string) {
    Utf8Length(a) + 4 + Utf8Length(b) > maxBytes || StartsOversize(lang, text, maxBytes, b)
  }

  // The same with what is still in the buffer.
  predicate TightSoFar(
    lang: Language, text: string, maxBytes: int, separator: string, chunks: seq<string>, parts: seq<string>)
  {
    Tight(lang, text, maxBytes, if parts == [] then chunks else chunks + [Join(separator, parts)])
  }

  lemma TightAtStart(lang: Language, text: string, maxBytes: int, separator: string, part: string)
    ensures TightSoFar(lang, text, maxBytes, separator, [], [])
            && TightSoFar(lang, text, maxBytes, separator, [], [part])
  {}

  lemma TightGrows(
    lang: Language, text: string, maxBytes: int, separator: string, chunks: seq<string>, parts: seq<string>,
    part: string)
    requires TightSoFar(lang, text, maxBytes, separator, chunks, parts) && parts != [] && IsBlank(lang, separator)
    ensures TightSoFar(lang, text, maxBytes, separator, chunks, parts + [part])
  {
    hide TooMuch, Join;
    var b := Join(separator, parts);
    JoinOneMore(separator, parts, part);
    var was, now := chunks + [b], chunks + [b + separator + part];
    forall i | 0 < i < |now| ensures TooMuch(lang, text, maxBytes, now[i - 1], now[i]) {
      assert TooMuch(lang, text, maxBytes, was[i - 1], was[i]);
      if i == |chunks| {
        TooMuchGrows(lang, text, maxBytes, was[i - 1], b, separator, part);
      }
    }
  }

  lemma TooMuchGrows(lang: Language, text: string, maxBytes: int, a: string, b: string, separator: string, part: string)
    requires TooMuch(lang, text, maxBytes, a, b) && IsBlank(lang, separator)
    ensures TooMuch(lang, text, maxBytes, a, b + separator + part)
  {
    hide Words, Split, Strip, IsBlank;
    Utf8LengthOfConcat(b, separator);
    Utf8LengthOfConcat(b + separator, part);
    WordsAcross(lang, b, separator, part);
  }

  lemma TightFlush(
    lang: Language, text: string, maxBytes: int, separator: string, chunks: seq<string>, parts: seq<string>,
    part: string)
    requires TightSoFar(lang, text, maxBytes, separator, chunks, parts) && parts != []
    requires TooMuch(lang, text, maxBytes, Join(separator, parts), part)
    ensures TightSoFar(lang, text, maxBytes, separator, chunks + [Join(separator, parts)], [part])
  {
    hide TooMuch, Join;
    OnePart(separator, part);
  }

  lemma TightOversize(lang: Language, text: string, maxBytes: int, separator: string, chunks: seq<string>, part: string)
    requires Tight(lang, text, maxBytes, chunks) && StartsOversize(lang, text, maxBytes, part)
    ensures TightSoFar(lang, text, maxBytes, separator, chunks, [part])
  {
    hide StartsOversize, Join;
    OnePart(separator, part);
  }

  lemma FirstWordStarts(lang: Language, text: string, maxBytes: int, p: nat)
    requires p < |Split(text, BREAK)|
    requires var para := Strip(lang, Split(text, BREAK)[p]); Utf8Length(para) >= maxBytes && Words(lang, para) != []
    ensures StartsOversize(lang, text, maxBytes, Words(lang, Strip(lang, Split(text, BREAK)[p]))[0])
  {
    hide Words, Split, Strip;
    var para := Strip(lang, Split(text, BREAK)[p]);
    var word := Words(lang, para)[0];
    WordsAreWords(lang, para);
    WordsOfWords(lang, [word]);
    WordsOfJustOne(lang, word);
    assert OversizeBegins(lang, para, maxBytes, word);
  }

  lemma OnePart(separator: string, part: string)
    ensures [] + [part] == [part] && Join(separator, [part]) == part
  {
    JoinOneMore(separator, [], part);
    assert [] + [part] == [part];
  }

  // ---------- paragraphs stay whole ----------

  predicate Within(chunk: string, part: string) {
    exists i :: 0 <= i <= |chunk| && part <= chunk[i..]
  }

  // The paragraph is blank, reaches the bound, or stands in one of the pieces.
  predicate StaysWhole(maxBytes: int, para: string, pieces: seq<string>) {
    para == "" || Utf8Length(para) >= maxBytes || exists k :: 0 <= k < |pieces| && Within(pieces[k], para)
  }

  // So do the first n paragraphs of the text.
  predicate KeepsParagraphs(lang: Language, text: string, maxBytes: int, n: nat, pieces: seq<string>) {
    forall p :: 0 <= p < n && p < |Split(text, BREAK)| ==>
      StaysWhole(maxBytes, Strip(lang, Split(text, BREAK)[p]), pieces)
  }

  lemma WithinLonger(a: string, b: string, c: string, part: string)
    requires Within(b, part)
    ensures Within(a + b + c, part)
  {
    var i :| 0 <= i <= |b| && part <= b[i..];
    assert (a + b + c)[|a| + i..] == b[i..] + c;
  }

  lemma WithinItself(part: string)
    ensures Within(part, part)
  {
    assert part[0..] == part;
  }

  // The pieces go on, each as it was or longer.
  predicate Extends(pieces: seq<string>, more: seq<string>) {
    forall k :: 0 <= k < |pieces| ==> k < |more| && pieces[k] <= more[k]
  }

  // More chunks, the last of which may have grown, still hold what the old ones held.
  lemma StaysWholeInMore(maxBytes: int, para: string, pieces: seq<string>, more: seq<string>)
    requires StaysWhole(maxBytes, para, pieces)
    requires Extends(pieces, more)
    ensures StaysWhole(maxBytes, para, more)
  {
    if para != "" && Utf8Length(para) < maxBytes {
      var k :| 0 <= k < |pieces| && Within(pieces[k], para);
      WithinLonger("", pieces[k], more[k][|pieces[k]|..], para);
      assert more[k] == "" + pieces[k] + more[k][|pieces[k]|..];
    }
  }

  lemma KeptInMore(lang: Language, text: string, maxBytes: int, n: nat, pieces: seq<string>, more: seq<string>)
    requires KeepsParagraphs(lang, text, maxBytes, n, pieces)
    requires Extends(pieces, more)
    ensures KeepsParagraphs(lang, text, maxBytes, n, more)
  {
    hide StaysWhole, Extends;
    forall p | 0 <= p < n && p < |Split(text, BREAK)|
      ensures StaysWhole(maxBytes, Strip(lang, Split(text, BREAK)[p]), more)
    {
      StaysWholeInMore(maxBytes, Strip(lang, Split(text, BREAK)[p]), pieces, more);
    }
  }

  lemma NoneToKeep(lang: Language, text: string, maxBytes: int)
    ensures KeepsParagraphs(lang, text, maxBytes, 0, [])
  {}

  // The next paragraph has gone into the last piece, or need not stay whole.
  lemma KeepsOneMore(lang: Language, text: string, maxBytes: int, n: nat, pieces: seq<string>)
    requires KeepsParagraphs(lang, text, maxBytes, n, pieces) && n < |Split(text, BREAK)|
    requires var para := Strip(lang, Split(text, BREAK)[n]);
      para == "" || Utf8Length(para) >= maxBytes || (pieces != [] && Within(pieces[|pieces| - 1], para))
    ensures KeepsParagraphs(lang, text, maxBytes, n + 1, pieces)
  {
    hide Within, Split, Strip, Utf8Length;
  }

  // The chunks and what is in the buffer.
  function Pieces(separator: string, chunks: seq<string>, parts: seq<string>): seq<string> {
    if parts == [] then chunks else chunks + [Join(separator, parts)]
  }

  // A part more in the buffer holds that part and goes on where the buffer stood.
  lemma PiecesGrow(lang: Language, text: string, maxBytes: int, n: nat, separator: string, chunks: seq<string>,
                   parts: seq<string>, part: string)
    requires KeepsParagraphs(lang, text, maxBytes, n, Pieces(separator, chunks, parts))
    ensures KeepsParagraphs(lang, text, maxBytes, n, Pieces(separator, chunks, parts + [part]))
    ensures var pieces := Pieces(separator, chunks, parts + [part]); pieces != [] && Within(pieces[|pieces| - 1], part)
  {
    hide Join, KeepsParagraphs;
    JoinOneMore(separator, parts, part);
    WithinItself(part);
    if parts != [] {
      var joined := Join(separator, parts);
      WithinLonger(joined + separator, part, "", part);
      assert joined + separator + part + "" == joined + separator + part;
      assert joined <= joined + separator + part;
    }
    KeptInMore(lang, text, maxBytes, n, Pieces(separator, chunks, parts), Pieces(separator, chunks, parts + [part]));
  }

  // The word loop of an oversize paragraph. rest is what is left in the word buffer, joined.
  method PackWords(chunks0: seq<string>, para: string, maxBytes: int, ghost text: string)
    returns (chunks: seq<string>, buffer: seq<string>)
    requires AllFit(Python, chunks0, maxBytes) && Tight(Python, text, maxBytes, chunks0)
    requires Words(Python, para) != [] ==> StartsOversize(Python, text, maxBytes, Words(Python, para)[0])
    ensures TightSoFar(Python, text, maxBytes, " ", chunks, buffer) && chunks0 <= chunks
    ensures AllFit(Python, chunks, maxBytes)
    ensures WordsOfAll(Python, chunks) + WordsOfAll(Python, buffer) == WordsOfAll(Python, chunks0) + Words(Python, para)
    ensures buffer != [] ==> Fits(Python, Join(" ", buffer), maxBytes)
    ensures Words(Python, para) != [] ==> buffer != []
  {
    hide IsSpace, Words, Fits, AllFit, Join, BufferFits, WordsOfAll, Tight, TightSoFar, StartsOversize;
    SeparatorsAreBlank(Python);
    TightIs(Python, text, maxBytes, " ", chunks0);
    var words := Words(Python, para);
    WordsAreWords(Python, para);
    chunks, buffer := chunks0, [];
    var bytes := 0;
    NothingBuffered(Python, chunks0, " ", maxBytes, words);
    for i := 0 to |words|
      invariant AllFit(Python, chunks, maxBytes)
      invariant BufferFits(Python, " ", buffer, bytes, maxBytes)
      invariant WordsOfAll(Python, chunks) + WordsOfAll(Python, buffer)
             == WordsOfAll(Python, chunks0) + WordsOfAll(Python, words[..i])
      invariant if i == 0 then buffer == [] && chunks == chunks0 else buffer != []
      invariant TightSoFar(Python, text, maxBytes, " ", chunks, buffer) && chunks0 <= chunks
      invariant if buffer == [] then bytes == 0 else bytes <= Utf8Length(Join(" ", buffer)) + 1
    {
      var word := words[i];
      var wb := Utf8Length(word);
      JoinedLength(" ", buffer, word);
      OnePart(" ", word);
      if buffer == [] {
        TightOversize(Python, text, maxBytes, " ", chunks, word);
      } else {
        TightGrows(Python, text, maxBytes, " ", chunks, buffer, word);
      }
      if buffer != [] && bytes + 1 + wb > maxBytes {
        TightFlush(Python, text, maxBytes, " ", chunks, buffer, word);
        BufferIsChunk(Python, " ", buffer, bytes, maxBytes);
        FlushKeepsWords(Python, " ", chunks, buffer);
        FitsOneMore(Python, chunks, Join(" ", buffer), maxBytes);
        chunks := chunks + [Join(" ", buffer)];
        buffer, bytes := [], 0;
        NothingBuffered(Python, chunks, " ", maxBytes, words);
      }
      WordFits(Python, word, maxBytes);
      BufferGrows(Python, " ", buffer, word, bytes, maxBytes);
      WordsOfParts(Python, chunks, buffer, word);
      assert words[..i + 1] == words[..i] + [word];
      WordsOfParts(Python, chunks0, words[..i], word);
      buffer := buffer + [word];
      // Counted after the append, so the separator is counted for the first word too.
      bytes := bytes + (if buffer != [] then 1 else 0) + wb;
    }
    assert words[..|words|] == words;
    WordsOfWords(Python, words);
    if buffer != [] {
      BufferIsChunk(Python, " ", buffer, bytes, maxBytes);
    }
  }

  lemma TightIs(lang: Language, text: string, maxBytes: int, separator: string, chunks: seq<string>)
    ensures TightSoFar(lang, text, maxBytes, separator, chunks, []) <==> Tight(lang, text, maxBytes, chunks)
  {}

  lemma NothingBuffered(lang: Language, chunks: seq<string>, separator: string, maxBytes: int, words: seq<string>)
    ensures BufferFits(lang, separator, [], 0, maxBytes)
    ensures WordsOfAll(lang, chunks) + WordsOfAll(lang, []) == WordsOfAll(lang, chunks)
    ensures words[..0] == []
  {}

  lemma BufferIsChunk(lang: Language, separator: string, parts: seq<string>, bytes: int, maxBytes: int)
    requires BufferFits(lang, separator, parts, bytes, maxBytes) && parts != []
    ensures Fits(lang, Join(separator, parts), maxBytes) && Utf8Length(Join(separator, parts)) <= bytes
  {}

  lemma WordFits(lang: Language, word: string, maxBytes: int)
    requires IsWord(lang, word)
    ensures Fits(lang, word, maxBytes)
  {}

  // One more paragraph, given by its words, has gone into the buffer.
  lemma ParagraphAdded(chunks0: seq<string>, current0: seq<string>, done: seq<string>, para: string,
                       chunks: seq<string>, current: seq<string>, part: string)
    requires WordsOfAll(Python, chunks0) + WordsOfAll(Python, current0) == WordsOfAll(Python, done)
    requires WordsOfAll(Python, chunks) + Words(Python, part) == WordsOfAll(Python, chunks0) + Words(Python, para)
    requires current == [] ==> current0 == []
    requires current != [] ==> current == current0 && chunks == chunks0 && Words(Python, part) == Words(Python, para)
    ensures WordsOfAll(Python, chunks) + WordsOfAll(Python, current + [part]) == WordsOfAll(Python, done + [para])
  {
    hide Words;
    WordsOfParts(Python, chunks, current, part);
    WordsOfOneMore(Python, done, para);
    assert WordsOfAll(Python, []) == [];
    if current == [] {
      assert WordsOfAll(Python, chunks0) + [] == WordsOfAll(Python, chunks0);
      assert WordsOfAll(Python, chunks) + [] == WordsOfAll(Python, chunks);
    }
  }

  // Chunks and buffer in front of paragraph p: as full as can be, with every small paragraph whole.
  predicate Full(text: string, maxBytes: int, p: nat, chunks: seq<string>, current: seq<string>) {
    TightSoFar(Python, text, maxBytes, BREAK, chunks, current) && (current == [] ==> chunks == [])
    && KeepsParagraphs(Python, text, maxBytes, p, Pieces(BREAK, chunks, current))
  }

  // The same when the buffer may have been flushed for paragraph p.
  predicate FullFor(text: string, maxBytes: int, p: nat, chunks: seq<string>, current: seq<string>, para: string) {
    TightSoFar(Python, text, maxBytes, BREAK, chunks, current)
    && TightSoFar(Python, text, maxBytes, BREAK, chunks, current + [para])
    && KeepsParagraphs(Python, text, maxBytes, p, Pieces(BREAK, chunks, current))
  }

  lemma NothingIsFull(text: string, maxBytes: int)
    ensures Full(text, maxBytes, 0, [], [])
  {
    TightAtStart(Python, text, maxBytes, BREAK, "");
    NoneToKeep(Python, text, maxBytes);
  }

  lemma BlankKeepsFull(text: string, maxBytes: int, p: nat, chunks: seq<string>, current: seq<string>)
    requires Full(text, maxBytes, p, chunks, current) && p < |Split(text, BREAK)|
    requires Strip(Python, Split(text, BREAK)[p]) == ""
    ensures Full(text, maxBytes, p + 1, chunks, current)
  {
    hide KeepsParagraphs, Split, Strip, TightSoFar;
    KeepsOneMore(Python, text, maxBytes, p, Pieces(BREAK, chunks, current));
  }

  lemma FullWithoutFlush(
    text: string, maxBytes: int, p: nat, chunks: seq<string>, current: seq<string>, para: string)
    requires Full(text, maxBytes, p, chunks, current)
    ensures FullFor(text, maxBytes, p, chunks, current, para)
  {
    hide KeepsParagraphs, TightSoFar;
    if current == [] {
      TightAtStart(Python, text, maxBytes, BREAK, para);
      assert [] + [para] == [para];
    } else {
      SeparatorsAreBlank(Python);
      TightGrows(Python, text, maxBytes, BREAK, chunks, current, para);
    }
  }

  lemma FullAfterFlush(
    text: string, maxBytes: int, p: nat, chunks: seq<string>, current: seq<string>, para: string)
    requires Full(text, maxBytes, p, chunks, current) && current != []
    requires Utf8Length(Join(BREAK, current)) + 4 + Utf8Length(para) > maxBytes
    ensures FullFor(text, maxBytes, p, chunks + [Join(BREAK, current)], [], para)
  {
    hide KeepsParagraphs, TightSoFar, Join;
    TightFlush(Python, text, maxBytes, BREAK, chunks, current, para);
    TightIsFlushed(Python, text, maxBytes, BREAK, chunks, current);
    TightIs(Python, text, maxBytes, BREAK, chunks + [Join(BREAK, current)]);
    assert [] + [para] == [para];
  }

  lemma FullWithShort(
    text: string, maxBytes: int, p: nat, chunks: seq<string>, current: seq<string>, para: string)
    requires FullFor(text, maxBytes, p, chunks, current, para) && p < |Split(text, BREAK)|
    requires para == Strip(Python, Split(text, BREAK)[p])
    ensures Full(text, maxBytes, p + 1, chunks, current + [para])
  {
    hide KeepsParagraphs, TightSoFar, Split, Strip, Pieces;
    PiecesGrow(Python, text, maxBytes, p, BREAK, chunks, current, para);
    KeepsOneMore(Python, text, maxBytes, p, Pieces(BREAK, chunks, current + [para]));
  }

  lemma FullForWords(text: string, maxBytes: int, p: nat, chunks: seq<string>, para: string)
    requires FullFor(text, maxBytes, p, chunks, [], para) && p < |Split(text, BREAK)|
    requires para == Strip(Python, Split(text, BREAK)[p]) && Utf8Length(para) >= maxBytes
    ensures Tight(Python, text, maxBytes, chunks)
    ensures Words(Python, para) != [] ==> StartsOversize(Python, text, maxBytes, Words(Python, para)[0])
  {
    hide KeepsParagraphs, TightSoFar, Split, Strip, Words, StartsOversize;
    TightIs(Python, text, maxBytes, BREAK, chunks);
    if Words(Python, para) != [] {
      FirstWordStarts(Python, text, maxBytes, p);
    }
  }

  lemma FullWithWords(
    text: string, maxBytes: int, p: nat, chunks0: seq<string>, para: string, chunks: seq<string>, buffer: seq<string>)
    requires FullFor(text, maxBytes, p, chunks0, [], para) && p < |Split(text, BREAK)|
    requires para == Strip(Python, Split(text, BREAK)[p]) && Utf8Length(para) >= maxBytes
    requires TightSoFar(Python, text, maxBytes, " ", chunks, buffer) && chunks0 <= chunks && buffer != []
    ensures Full(text, maxBytes, p + 1, chunks, [Join(" ", buffer)])
  {
    hide KeepsParagraphs, TightSoFar, Split, Strip, Join;
    var segment := Join(" ", buffer);
    SegmentIsPart(Python, text, maxBytes, chunks, buffer);
    KeptInMore(Python, text, maxBytes, p, chunks0, chunks);
    PiecesGrow(Python, text, maxBytes, p, BREAK, chunks, [], segment);
    assert [] + [segment] == [segment];
    KeepsOneMore(Python, text, maxBytes, p, Pieces(BREAK, chunks, [segment]));
  }

  lemma FullIsDone(text: string, maxBytes: int, p: nat, chunks: seq<string>, current: seq<string>)
    requires Full(text, maxBytes, p, chunks, current)
    ensures var all := if current == [] then chunks else chunks + [Join(BREAK, current)];
      Tight(Python, text, maxBytes, all) && KeepsParagraphs(Python, text, maxBytes, p, all)
  {
    hide KeepsParagraphs, Join, Tight;
  }

  method PyChunkText(text: string, maxBytes: int) returns (chunks: seq<string>)
    ensures maxBytes > 0 ==> IsChunking(Python, text, maxBytes, chunks) && Tight(Python, text, maxBytes, chunks)
    ensures maxBytes > 0 && text != "" ==>
      KeepsParagraphs(Python, text, maxBytes, |Split(text, BREAK)|, chunks)
    ensures maxBytes <= 0 ==> chunks == []
  {
    hide IsSpace, Words, Fits, Join, Split, WordsOfAll, Strip, BufferFits, Tight, TightSoFar, StartsOversize,
      KeepsParagraphs, Full, FullFor;
    NothingIsFull(text, maxBytes);
    FullIsDone(text, maxBytes, 0, [], []);
    NothingBuffered(Python, [], BREAK, maxBytes, []);
    WordsOfEmpty(Python);
    if text == "" || maxBytes <= 0 {
      return [];
    }
    SeparatorsAreBlank(Python);
    chunks := [];
    var current: seq<string> := [];
    var currentBytes := 0;
    var paras := Split(text, BREAK);
    SplitKeepsWords(Python, text, BREAK);
    NothingBuffered(Python, [], BREAK, maxBytes, paras);
    for p := 0 to |paras|
      invariant AllFit(Python, chunks, maxBytes)
      invariant currentBytes >= 0 && BufferFits(Python, BREAK, current, currentBytes, maxBytes)
      invariant WordsOfAll(Python, chunks) + WordsOfAll(Python, current) == WordsOfAll(Python, paras[..p])
      invariant Full(text, maxBytes, p, chunks, current)
      invariant if current == [] then currentBytes == 0 else currentBytes <= Utf8Length(Join(BREAK, current)) + 2
    {
      var para := Strip(Python, paras[p]);
      StripKeeps(Python, paras[p]);
      assert paras[..p + 1] == paras[..p] + [paras[p]];
      if para == "" {
        WordsOfOneMore(Python, paras[..p], paras[p]);
        BlankKeepsFull(text, maxBytes, p, chunks, current);
        continue;
      }
      var pb := Utf8Length(para);
      JoinedLength(BREAK, current, para);
      OnePart(BREAK, para);
      FullWithoutFlush(text, maxBytes, p, chunks, current, para);
      if current != [] && currentBytes + 2 + pb > maxBytes {
        BufferIsChunk(Python, BREAK, current, currentBytes, maxBytes);
        FlushKeepsWords(Python, BREAK, chunks, current);
        FitsOneMore(Python, chunks, Join(BREAK, current), maxBytes);
        FullAfterFlush(text, maxBytes, p, chunks, current, para);
        chunks := chunks + [Join(BREAK, current)];
        current, currentBytes := [], 0;
        NothingBuffered(Python, chunks, BREAK, maxBytes, []);
      }
      if pb >= maxBytes {
        // Nothing is pending here: a pending paragraph would not have fitted before this one.
        assert current == [];
        ghost var chunks0 := chunks;
        var buffer;
        FullForWords(text, maxBytes, p, chunks, para);
        chunks, buffer := PackWords(chunks, para, maxBytes, text);
        FullWithWords(text, maxBytes, p, chunks0, para, chunks, buffer);
        var segment := Join(" ", buffer);
        OnePart(BREAK, segment);
        JoinKeepsWords(Python, " ", buffer);
        ParagraphAdded(chunks0, [], paras[..p], paras[p], chunks, [], segment);
        BufferGrows(Python, BREAK, [], segment, 0, maxBytes);
        current := current + [segment];
        // Counted after the append, so a separator is counted for the first part too.
        currentBytes := currentBytes + (if current != [] then 2 else 0) + Utf8Length(segment);
      } else {
        ParagraphAdded(chunks, current, paras[..p], paras[p], chunks, current, para);
        FullWithShort(text, maxBytes, p, chunks, current, para);
        ShortFits(Python, para, maxBytes);
        BufferGrows(Python, BREAK, current, para, currentBytes, maxBytes);
        current := current + [para];
        currentBytes := currentBytes + (if |current| > 1 then 2 else 0) + pb;
      }
    }
    assert paras[..|paras|] == paras;
    FullIsDone(text, maxBytes, |paras|, chunks, current);
    if current != [] {
      BufferIsChunk(Python, BREAK, current, currentBytes, maxBytes);
      FlushKeepsWords(Python, BREAK, chunks, current);
      FitsOneMore(Python, chunks, Join(BREAK, current), maxBytes);
      chunks := chunks + [Join(BREAK, current)];
    } else {
      NothingBuffered(Python, chunks, BREAK, maxBytes, []);
    }
  }

  lemma TightIsFlushed(
    lang: Language, text: string, maxBytes: int, separator: string, chunks: seq<string>, parts: seq<string>)
    requires TightSoFar(lang, text, maxBytes, separator, chunks, parts) && parts != []
    ensures Tight(lang, text, maxBytes, chunks + [Join(separator, parts)])
  {}

  // The words left in the buffer make one part of the next chunk.
  lemma SegmentIsPart(lang: Language, text: string, maxBytes: int, chunks: seq<string>, buffer: seq<string>)
    requires TightSoFar(lang, text, maxBytes, " ", chunks, buffer) && buffer != []
    ensures TightSoFar(lang, text, maxBytes, BREAK, chunks, [Join(" ", buffer)])
  {
    hide Tight;
    OnePart(BREAK, Join(" ", buffer));
  }

  lemma ShortFits(lang: Language, s: string, maxBytes: int)
    requires Utf8Length(s) <= maxBytes
    ensures Fits(lang, s, maxBytes)
  {}

  // ---------- Rust ----------

  lemma TrimFits(s: string, maxBytes: int)
    requires Fits(Rust, s, maxBytes)
    ensures Fits(Rust, Strip(Rust, s), maxBytes)
  {
    StripKeeps(Rust, s);
  }

  // A text and what is appended to it behind a separator.
  lemma Appended(s: string, separator: string, t: string, maxBytes: int)
    requires IsBlank(Rust, separator)
    requires Utf8Length(s) + Utf8Length(separator) + Utf8Length(t) <= maxBytes
    ensures Fits(Rust, s + separator + t, maxBytes)
    ensures Words(Rust, s + separator + t) == Words(Rust, s) + Words(Rust, t)
  {
    WordsAcross(Rust, s, separator, t);
    Utf8LengthOfConcat(s, separator);
    Utf8LengthOfConcat(s + separator, t);
  }

  lemma TrimmedPushed(chunks: seq<string>, s: string, maxBytes: int)
    requires AllFit(Rust, chunks, maxBytes) && Fits(Rust, s, maxBytes)
    ensures AllFit(Rust, chunks + [Strip(Rust, s)], maxBytes)
    ensures WordsOfAll(Rust, chunks + [Strip(Rust, s)]) == WordsOfAll(Rust, chunks) + Words(Rust, s)
  {
    TrimFits(s, maxBytes);
    StripKeeps(Rust, s);
    WordsOfOneMore(Rust, chunks, Strip(Rust, s));
  }

  // White space neither begins nor ends the text.
  predicate Trimmed(s: string) {
    s != "" && !IsSpace(Rust, s[0]) && !IsSpace(Rust, s[|s| - 1])
  }

  // No paragraph of the text is blank or has white space around it.
  predicate TrimmedParagraphs(text: string) {
    forall p :: 0 <= p < |Split(text, BREAK)| ==> Trimmed(Split(text, BREAK)[p])
  }

  lemma TrimmedIsStripped(s: string)
    requires Trimmed(s)
    ensures Strip(Rust, s) == s
  {}

  lemma TrimmedConcat(a: string, separator: string, b: string)
    requires Trimmed(a) && Trimmed(b)
    ensures Trimmed(a + separator + b)
  {}

  lemma WordIsTrimmed(word: string)
    requires IsWord(Rust, word)
    ensures Trimmed(word)
  {}

  // How full the chunks are when the buffer is one string: it is trimmed, so that pushing it loses nothing.
  predicate TightWith(text: string, maxBytes: int, chunks: seq<string>, buffer: string) {
    if buffer == "" then Tight(Rust, text, maxBytes, chunks)
    else Trimmed(buffer) && Tight(Rust, text, maxBytes, chunks + [buffer])
  }

  lemma TightWithMore(text: string, maxBytes: int, chunks: seq<string>, buffer: string, separator: string, part: string)
    requires TightWith(text, maxBytes, chunks, buffer) && buffer != "" && IsBlank(Rust, separator) && Trimmed(part)
    ensures TightWith(text, maxBytes, chunks, buffer + separator + part)
  {
    hide TooMuch, Trimmed;
    TrimmedConcat(buffer, separator, part);
    var was, now := chunks + [buffer], chunks + [buffer + separator + part];
    forall i | 0 < i < |now| ensures TooMuch(Rust, text, maxBytes, now[i - 1], now[i]) {
      assert TooMuch(Rust, text, maxBytes, was[i - 1], was[i]);
      if i == |chunks| {
        TooMuchGrows(Rust, text, maxBytes, was[i - 1], buffer, separator, part);
      }
    }
  }

  lemma TightWithFlush(text: string, maxBytes: int, chunks: seq<string>, buffer: string, part: string)
    requires TightWith(text, maxBytes, chunks, buffer) && buffer != "" && Trimmed(part)
    requires TooMuch(Rust, text, maxBytes, buffer, part)
    ensures TightWith(text, maxBytes, chunks + [buffer], part) && Tight(Rust, text, maxBytes, chunks + [buffer])
    ensures Strip(Rust, buffer) == buffer
  {
    hide TooMuch;
    TrimmedIsStripped(buffer);
  }

  lemma TightWithFirst(text: string, maxBytes: int, chunks: seq<string>, part: string)
    requires Tight(Rust, text, maxBytes, chunks) && Trimmed(part)
    requires chunks == [] || StartsOversize(Rust, text, maxBytes, part)
    ensures TightWith(text, maxBytes, chunks, part)
  {
    hide StartsOversize;
  }

  // The chunks and the buffer, when that is one string.
  function WithBuffer(chunks: seq<string>, buffer: string): seq<string> {
    if buffer == "" then chunks else chunks + [buffer]
  }

  lemma BufferTakes(text: string, maxBytes: int, n: nat, chunks: seq<string>, buffer: string, para: string)
    requires KeepsParagraphs(Rust, text, maxBytes, n, WithBuffer(chunks, buffer)) && para != ""
    ensures var now := if buffer == "" then para else buffer + BREAK + para;
            var pieces := WithBuffer(chunks, now);
      KeepsParagraphs(Rust, text, maxBytes, n, pieces) && pieces != [] && Within(pieces[|pieces| - 1], para)
  {
    hide KeepsParagraphs;
    var now := if buffer == "" then para else buffer + BREAK + para;
    WithinItself(para);
    if buffer != "" {
      WithinLonger(buffer + BREAK, para, "", para);
      assert buffer + BREAK + para + "" == buffer + BREAK + para;
      assert buffer <= buffer + BREAK + para;
    }
    KeptInMore(Rust, text, maxBytes, n, WithBuffer(chunks, buffer), WithBuffer(chunks, now));
  }

  lemma TightWithIs(text: string, maxBytes: int, chunks: seq<string>, buffer: string, part: string)
    requires Utf8Length(buffer) + 2 + Utf8Length(part) > maxBytes
    ensures TooMuch(Rust, text, maxBytes, buffer, part)
  {}

  lemma TightWithLast(text: string, maxBytes: int, chunks: seq<string>, buffer: string)
    requires TightWith(text, maxBytes, chunks, buffer) && buffer != ""
    ensures Strip(Rust, buffer) == buffer && Tight(Rust, text, maxBytes, chunks + [buffer])
  {
    TrimmedIsStripped(buffer);
  }

  lemma TrimmedHasWords(s: string)
    requires Trimmed(s)
    ensures Words(Rust, s) != []
  {}

  lemma TightWithNothing(text: string, maxBytes: int, chunks: seq<string>)
    ensures TightWith(text, maxBytes, chunks, "") <==> Tight(Rust, text, maxBytes, chunks)
    ensures Tight(Rust, text, maxBytes, [])
  {}

  // The word loop of an oversize paragraph. tight says whether the chunks are to be as full as they can.
  method PackWordsRust(chunks0: seq<string>, para: string, maxBytes: nat, ghost text: string, ghost tight: bool)
    returns (chunks: seq<string>, wordBuf: string)
    requires tight ==> Tight(Rust, text, maxBytes, chunks0)
    requires tight && Words(Rust, para) != [] ==> StartsOversize(Rust, text, maxBytes, Words(Rust, para)[0])
    ensures tight ==> TightWith(text, maxBytes, chunks, wordBuf)
    ensures Words(Rust, para) != [] ==> wordBuf != ""
    ensures chunks0 <= chunks
    requires AllFit(Rust, chunks0, maxBytes)
    ensures AllFit(Rust, chunks, maxBytes) && Fits(Rust, wordBuf, maxBytes)
    ensures WordsOfAll(Rust, chunks) + Words(Rust, wordBuf) == WordsOfAll(Rust, chunks0) + Words(Rust, para)
  {
    hide IsSpace, Words, Fits, AllFit, Strip, WordsOfAll, Tight, TightWith, Trimmed, StartsOversize;
    SeparatorsAreBlank(Rust);
    TightWithNothing(text, maxBytes, chunks0);
    WordsOfEmpty(Rust);
    ShortFits(Rust, "", maxBytes);
    var words := Words(Rust, para);
    WordsAreWords(Rust, para);
    chunks, wordBuf := chunks0, "";
    NothingBuffered(Rust, chunks0, " ", maxBytes, words);
    for i := 0 to |words|
      invariant AllFit(Rust, chunks, maxBytes) && Fits(Rust, wordBuf, maxBytes)
      invariant WordsOfAll(Rust, chunks) + Words(Rust, wordBuf) ==
          WordsOfAll(Rust, chunks0) + WordsOfAll(Rust, words[..i])
      invariant if i == 0 then wordBuf == "" && chunks == chunks0 else wordBuf != ""
      invariant tight ==> TightWith(text, maxBytes, chunks, wordBuf)
      invariant chunks0 <= chunks
    {
      var word := words[i];
      assert words[..i + 1] == words[..i] + [word];
      WordsOfParts(Rust, chunks0, words[..i], word);
      WordIsTrimmed(word);
      if tight && wordBuf == "" {
        TightWithFirst(text, maxBytes, chunks, word);
      } else if tight {
        TightWithMore(text, maxBytes, chunks, wordBuf, " ", word);
      }
      if Utf8Length(wordBuf) + Utf8Length(word) + 1 > maxBytes {
        if wordBuf != "" {
          TrimmedPushed(chunks, wordBuf, maxBytes);
          if tight {
            TightWithIs(text, maxBytes, chunks, wordBuf, word);
            TightWithFlush(text, maxBytes, chunks, wordBuf, word);
          }
          chunks := chunks + [Strip(Rust, wordBuf)];
          wordBuf := "";
          assert WordsOfAll(Rust, chunks) + [] == WordsOfAll(Rust, chunks);
        }
      }
      if wordBuf != "" {
        Appended(wordBuf, " ", word, maxBytes);
        WordsAssociate(WordsOfAll(Rust, chunks), Words(Rust, wordBuf), Words(Rust, word));
        wordBuf := wordBuf + " ";
      } else {
        WordFits(Rust, word, maxBytes);
        assert WordsOfAll(Rust, chunks) + [] == WordsOfAll(Rust, chunks);
        assert "" + word == word;
      }
      assert word != "";
      wordBuf := wordBuf + word;
    }
    assert words[..|words|] == words;
    WordsOfWords(Rust, words);
  }

  // Chunks and buffer in front of paragraph p, if no paragraph has white space around it.
  predicate FullRust(text: string, maxBytes: int, p: nat, chunks: seq<string>, current: string) {
    TrimmedParagraphs(text) ==>
      TightWith(text, maxBytes, chunks, current) && (current == "" ==> chunks == [])
      && KeepsParagraphs(Rust, text, maxBytes, p, WithBuffer(chunks, current))
  }

  // The buffer with the paragraph behind what it holds.
  function Taken(current: string, para: string): string {
    if current == "" then para else current + BREAK + para
  }

  predicate FullRustFor(text: string, maxBytes: int, p: nat, chunks: seq<string>, current: string, para: string) {
    TrimmedParagraphs(text) ==>
      TightWith(text, maxBytes, chunks, current) && TightWith(text, maxBytes, chunks, Taken(current, para))
      && KeepsParagraphs(Rust, text, maxBytes, p, WithBuffer(chunks, current))
  }

  lemma NothingIsFullRust(text: string, maxBytes: int)
    ensures FullRust(text, maxBytes, 0, [], "")
    ensures TrimmedParagraphs(text) ==> Tight(Rust, text, maxBytes, [])
  {
    TightWithNothing(text, maxBytes, []);
    NoneToKeep(Rust, text, maxBytes);
  }

  lemma RustWithoutFlush(text: string, maxBytes: int, p: nat, chunks: seq<string>, current: string)
    requires FullRust(text, maxBytes, p, chunks, current) && p < |Split(text, BREAK)|
    ensures FullRustFor(text, maxBytes, p, chunks, current, Split(text, BREAK)[p])
  {
    hide KeepsParagraphs, TightWith, Split, Trimmed;
    if TrimmedParagraphs(text) {
      var para := Split(text, BREAK)[p];
      assert Trimmed(para);
      if current == "" {
        TightWithNothing(text, maxBytes, chunks);
        TightWithFirst(text, maxBytes, chunks, para);
      } else {
        SeparatorsAreBlank(Rust);
        TightWithMore(text, maxBytes, chunks, current, BREAK, para);
      }
    }
  }

  lemma RustAfterFlush(text: string, maxBytes: int, p: nat, chunks: seq<string>, current: string)
    requires FullRust(text, maxBytes, p, chunks, current) && p < |Split(text, BREAK)| && current != ""
    requires Utf8Length(current) + 2 + Utf8Length(Split(text, BREAK)[p]) > maxBytes
    ensures FullRustFor(text, maxBytes, p, chunks + [Strip(Rust, current)], "", Split(text, BREAK)[p])
  {
    hide KeepsParagraphs, TightWith, Split, Trimmed, Strip;
    if TrimmedParagraphs(text) {
      var para := Split(text, BREAK)[p];
      assert Trimmed(para);
      TightWithIs(text, maxBytes, chunks, current, para);
      TightWithFlush(text, maxBytes, chunks, current, para);
      TightWithNothing(text, maxBytes, chunks + [current]);
    }
  }

  lemma RustWithShort(text: string, maxBytes: int, p: nat, chunks: seq<string>, current: string)
    requires p < |Split(text, BREAK)| && FullRustFor(text, maxBytes, p, chunks, current, Split(text, BREAK)[p])
    ensures FullRust(text, maxBytes, p + 1, chunks, Taken(current, Split(text, BREAK)[p]))
  {
    hide KeepsParagraphs, TightWith, Split, WithBuffer;
    if TrimmedParagraphs(text) {
      var para := Split(text, BREAK)[p];
      assert Trimmed(para);
      TrimmedIsStripped(para);
      BufferTakes(text, maxBytes, p, chunks, current, para);
      KeepsOneMore(Rust, text, maxBytes, p, WithBuffer(chunks, Taken(current, para)));
    }
  }

  lemma RustForWords(text: string, maxBytes: int, p: nat, chunks: seq<string>)
    requires p < |Split(text, BREAK)| && FullRustFor(text, maxBytes, p, chunks, "", Split(text, BREAK)[p])
    requires Utf8Length(Split(text, BREAK)[p]) >= maxBytes
    ensures TrimmedParagraphs(text) ==> Tight(Rust, text, maxBytes, chunks)
    ensures TrimmedParagraphs(text) && Words(Rust, Split(text, BREAK)[p]) != [] ==>
      StartsOversize(Rust, text, maxBytes, Words(Rust, Split(text, BREAK)[p])[0])
  {
    hide KeepsParagraphs, TightWith, Split, Words, StartsOversize;
    TightWithNothing(text, maxBytes, chunks);
    if TrimmedParagraphs(text) && Words(Rust, Split(text, BREAK)[p]) != [] {
      assert Trimmed(Split(text, BREAK)[p]);
      TrimmedIsStripped(Split(text, BREAK)[p]);
      FirstWordStarts(Rust, text, maxBytes, p);
    }
  }

  lemma RustWithWords(
    text: string, maxBytes: int, p: nat, chunks0: seq<string>, chunks: seq<string>, wordBuf: string)
    requires p < |Split(text, BREAK)| && FullRustFor(text, maxBytes, p, chunks0, "", Split(text, BREAK)[p])
    requires Utf8Length(Split(text, BREAK)[p]) >= maxBytes && chunks0 <= chunks
    requires TrimmedParagraphs(text) ==> TightWith(text, maxBytes, chunks, wordBuf)
    requires Words(Rust, Split(text, BREAK)[p]) != [] ==> wordBuf != ""
    ensures FullRust(text, maxBytes, p + 1, chunks, wordBuf)
  {
    hide KeepsParagraphs, TightWith, Split, Words;
    if TrimmedParagraphs(text) {
      var para := Split(text, BREAK)[p];
      assert Trimmed(para);
      TrimmedIsStripped(para);
      TrimmedHasWords(para);
      KeptInMore(Rust, text, maxBytes, p, chunks0, WithBuffer(chunks, wordBuf));
      KeepsOneMore(Rust, text, maxBytes, p, WithBuffer(chunks, wordBuf));
    }
  }

  lemma FullRustIsDone(text: string, maxBytes: int, p: nat, chunks: seq<string>, current: string)
    requires FullRust(text, maxBytes, p, chunks, current) && TrimmedParagraphs(text)
    ensures var all := if current == "" then chunks else chunks + [Strip(Rust, current)];
      Tight(Rust, text, maxBytes, all) && KeepsParagraphs(Rust, text, maxBytes, p, all)
    ensures current != "" ==> Strip(Rust, current) == current
  {
    hide KeepsParagraphs, Tight, Strip, Split;
    if current != "" {
      TightWithLast(text, maxBytes, chunks, current);
    }
  }

  method RustChunkText(text: string, maxBytes: nat) returns (chunks: seq<string>)
    ensures maxBytes > 0 ==> IsChunking(Rust, text, maxBytes, chunks)
    ensures maxBytes > 0 && TrimmedParagraphs(text) ==> Tight(Rust, text, maxBytes, chunks)
    ensures maxBytes > 0 && TrimmedParagraphs(text) && text != "" ==>
      KeepsParagraphs(Rust, text, maxBytes, |Split(text, BREAK)|, chunks)
    ensures maxBytes == 0 ==> chunks == []
  {
    hide IsSpace, Words, Fits, Split, WordsOfAll, Strip, Tight, TightWith, TrimmedParagraphs, StartsOversize,
      KeepsParagraphs, FullRust, FullRustFor;
    NothingBuffered(Rust, [], BREAK, maxBytes, []);
    NothingIsFullRust(text, maxBytes);
    WordsOfEmpty(Rust);
    if text == "" || maxBytes == 0 {
      return [];
    }
    SeparatorsAreBlank(Rust);
    ShortFits(Rust, "", maxBytes);
    chunks := [];
    var current := "";
    var paras := Split(text, BREAK);
    SplitKeepsWords(Rust, text, BREAK);
    NothingBuffered(Rust, [], BREAK, maxBytes, paras);
    for p := 0 to |paras|
      invariant AllFit(Rust, chunks, maxBytes) && Fits(Rust, current, maxBytes)
      invariant WordsOfAll(Rust, chunks) + Words(Rust, current) == WordsOfAll(Rust, paras[..p])
      invariant FullRust(text, maxBytes, p, chunks, current)
    {
      var para := paras[p];
      var paraBytes := Utf8Length(para);
      assert paras[..p + 1] == paras[..p] + [para];
      WordsOfOneMore(Rust, paras[..p], para);
      RustWithoutFlush(text, maxBytes, p, chunks, current);
      if current != "" && Utf8Length(current) + 2 + paraBytes > maxBytes {
        TrimmedPushed(chunks, current, maxBytes);
        RustAfterFlush(text, maxBytes, p, chunks, current);
        chunks := chunks + [Strip(Rust, current)];
        current := "";
        assert WordsOfAll(Rust, chunks) + [] == WordsOfAll(Rust, chunks);
      }
      if current == "" {
        assert WordsOfAll(Rust, chunks) + [] == WordsOfAll(Rust, chunks);
      }
      if paraBytes >= maxBytes {
        // Nothing is pending here: it would not have fitted before this paragraph.
        assert current == "";
        var wordBuf;
        ghost var before := chunks;
        RustForWords(text, maxBytes, p, chunks);
        chunks, wordBuf := PackWordsRust(chunks, para, maxBytes, text, TrimmedParagraphs(text));
        RustWithWords(text, maxBytes, p, before, chunks, wordBuf);
        if wordBuf != "" {
          current := current + wordBuf;
          assert current == wordBuf;
        }
      } else {
        RustWithShort(text, maxBytes, p, chunks, current);
        if current != "" {
          Appended(current, BREAK, para, maxBytes);
          WordsAssociate(WordsOfAll(Rust, chunks), Words(Rust, current), Words(Rust, para));
          current := current + BREAK;
        } else {
          ShortFits(Rust, para, maxBytes);
          assert "" + para == para;
        }
        current := current + para;
      }
    }
    assert paras[..|paras|] == paras;
    StripKeeps(Rust, current);
    if TrimmedParagraphs(text) {
      FullRustIsDone(text, maxBytes, |paras|, chunks, current);
    }
    if Strip(Rust, current) != "" {
      TrimmedPushed(chunks, current, maxBytes);
      chunks := chunks + [Strip(Rust, current)];
    } else {
      assert WordsOfAll(Rust, chunks) + [] == WordsOfAll(Rust, chunks);
    }
  }
}
