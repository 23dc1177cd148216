/** The streaming scrubber of sera/context/scrubber.py. */
module Scrubber {
  import opened Wrappers
  import opened Sequences
  import opened Text

  const TAGS := ["memory-context", "context"]
  const MAX_PARTIAL_KEEP := 16

  function Opener(tag: string): string {
    "<" + tag + ">"
  }

  function Closer(tag: string): string {
    "</" + tag + ">"
  }

  // ---------- what scrubbing means ----------

  // The tag whose opener starts the text; no two openers start the same text.
  function TagAt(text: string): Option<string> {
    if Opener(TAGS[0]) <= text then Some(TAGS[0])
    else if Opener(TAGS[1]) <= text then Some(TAGS[1])
    else None
  }

  predicate OpensAt(text: string, i: int) {
    0 <= i <= |text| && TagAt(text[i..]).Some?
  }

  // The leftmost place where an opener occurs.
  function FindOpener(text: string): (r: Option<nat>)
    ensures r.None? ==> forall i :: !OpensAt(text, i)
    ensures r.Some? ==> OpensAt(text, r.value) && forall i :: 0 <= i < r.value ==> !OpensAt(text, i)
  {
    if TagAt(text).Some? then
      assert text[0..] == text;
      Some(0)
    else if text == "" then
      None
    else
      var rest := FindOpener(text[1..]);
      assert forall i :: 1 <= i <= |text| ==> text[i..] == text[1..][i - 1..];
      assert text[0..] == text;
      assert forall i :: OpensAt(text, i) ==> OpensAt(text[1..], i - 1);
      if rest.None? then None else
        assert forall i :: OpensAt(text[1..], i) ==> OpensAt(text, i + 1);
        Some(rest.value + 1)
  }

  /**
   Cut from the leftmost opener to the first closer of its tag after it, or to the end of the text
   if there is none; then go on behind the closer.
   */
  function Scrubbed(text: string): string
    decreases |text|, 1
  {
    var open := FindOpener(text);
    if open.None? then text else text[..open.value] + Cut(text[open.value..])
  }

  // What follows the span whose opener starts the text, scrubbed.
  function Cut(text: string): string
    decreases |text|, 0
  {
    if TagAt(text).None? then "" else
    var tag := TagAt(text).value;
    var inner := text[|Opener(tag)|..];
    var close := Find(inner, Closer(tag));
    if close.None? then "" else Scrubbed(inner[close.value + |Closer(tag)|..])
  }

  // ---------- the automaton on values ----------

  // token is the closer being looked for, "" outside a span.
  datatype State = State(buf: string, token: string)

  // What is still to be emitted when the state is followed by the given text and then the end.
  function Remaining(st: State, rest: string): string {
    if st.token == "" then Scrubbed(st.buf + rest)
    else
      var close := Find(st.buf + rest, st.token);
      if close.None? then "" else Scrubbed((st.buf + rest)[close.value + |st.token|..])
  }

  predicate IsToken(token: string) {
    token == "" || token == Closer(TAGS[0]) || token == Closer(TAGS[1])
  }

  predicate PartialOpener(text: string) {
    text <= Opener(TAGS[0]) || text <= Opener(TAGS[1])
  }

  datatype Output = Output(st: State, out: string)

  // One round of the loop of feed; halt is its return from inside the loop.
  datatype Round = Round(st: State, out: string, halt: bool)

  function LastUpTo(s: string, n: nat): string {
    if |s| <= n then s else s[|s| - n..]
  }

  function Turn(st: State): (r: Round)
    requires st.buf != "" && IsToken(st.token)
    ensures IsToken(r.st.token)
    ensures !r.halt ==> |r.st.buf| < |st.buf|
  {
    if st.token != "" then
      var close := Find(st.buf, st.token);
      if close.None? then Round(State(LastUpTo(st.buf, |st.token| - 1), st.token), "", true)
      else Round(State(st.buf[close.value + |st.token|..], ""), "", false)
    else
      var lt := Find(st.buf, "<");
      if lt.None? then Round(State("", ""), st.buf, true)
      else
        var out, buf := st.buf[..lt.value], st.buf[lt.value..];
        if TagAt(buf).Some? then
          var tag := TagAt(buf).value;
          Round(State(buf[|Opener(tag)|..], Closer(tag)), out, false)
        else if PartialOpener(buf) then Round(State(buf, ""), out, true)
        else Round(State(buf[1..], ""), out + "<", false)
  }

  function Drain(st: State): (r: Output)
    requires IsToken(st.token)
    ensures IsToken(r.st.token)
    decreases |st.buf|
  {
    if st.buf == "" then Output(st, "") else
      var round := Turn(st);
      if round.halt then Output(round.st, round.out) else
        var rest := Drain(round.st);
        Output(rest.st, round.out + rest.out)
  }

  function FeedValue(st: State, chunk: string): (r: Output)
    requires IsToken(st.token)
    ensures IsToken(r.st.token)
  {
    if chunk == "" then Output(st, "") else Drain(State(st.buf + chunk, st.token))
  }

  function FlushValue(st: State): string {
    if st.token != "" then "" else st.buf
  }

  // All outputs of feeding the chunks one by one and then flushing, joined.
  function Stream(st: State, chunks: seq<string>): string
    requires IsToken(st.token)
    decreases |chunks|
  {
    if chunks == [] then FlushValue(st) else
      var fed := FeedValue(st, chunks[0]);
      fed.out + Stream(fed.st, chunks[1..])
  }

  // ---------- searching in a text and in its pieces ----------

  lemma OccursInSuffix(text: string, pattern: string, k: nat, i: int)
    requires k <= |text| && k <= i
    ensures OccursAt(text, pattern, i) <==> OccursAt(text[k..], pattern, i - k)
  {
    if i <= |text| {
      assert text[i..] == text[k..][i - k..];
    }
  }

  // If the pattern does not occur before k, the search may start at k.
  lemma FindAfter(text: string, pattern: string, k: nat)
    requires k <= |text| && forall i :: 0 <= i < k ==> !OccursAt(text, pattern, i)
    ensures var r := Find(text[k..], pattern);
      Find(text, pattern) == if r.None? then None else Some(r.value + k)
  {
    hide Find, OccursAt;
    forall i | k <= i
      ensures OccursAt(text, pattern, i) <==> OccursAt(text[k..], pattern, i - k)
    {
      OccursInSuffix(text, pattern, k, i);
    }
    var r := Find(text[k..], pattern);
    if r.Some? {
      forall i | 0 <= i < r.value + k
        ensures !OccursAt(text, pattern, i)
      {
        if k <= i {
          assert !OccursAt(text[k..], pattern, i - k);
        }
      }
      FindIsLeftmost(text, pattern, r.value + k);
    }
  }

  lemma PrefixOfLonger(pattern: string, text: string, rest: string)
    requires |pattern| <= |text|
    ensures pattern <= text <==> pattern <= text + rest
  {
    assert (text + rest)[..|pattern|] == text[..|pattern|];
  }

  // An occurrence that fits into a prefix of the text is an occurrence in the prefix.
  lemma OccursInPrefix(text: string, rest: string, pattern: string, i: nat)
    requires i + |pattern| <= |text|
    ensures OccursAt(text + rest, pattern, i) <==> OccursAt(text, pattern, i)
  {
    assert (text + rest)[i..] == text[i..] + rest;
    PrefixOfLonger(pattern, text[i..], rest);
  }

  lemma FoundStaysFound(text: string, rest: string, pattern: string)
    requires Find(text, pattern).Some?
    ensures Find(text + rest, pattern) == Find(text, pattern)
  {
    var i := Find(text, pattern).value;
    OccurrenceFits(text, pattern, i);
    OccursInPrefix(text, rest, pattern, i);
    forall j | 0 <= j < i
      ensures !OccursAt(text + rest, pattern, j)
    {
      OccursInPrefix(text, rest, pattern, j);
    }
    FindIsLeftmost(text + rest, pattern, i);
  }

  // A pattern that is not in the text can only begin in its last |pattern| - 1 characters.
  lemma TailIsEnough(text: string, rest: string, pattern: string)
    requires pattern != "" && Find(text, pattern).None?
    ensures var tail := LastUpTo(text, |pattern| - 1);
            var r := Find(tail + rest, pattern);
      Find(text + rest, pattern) == if r.None? then None else Some(r.value + |text| - |tail|)
  {
    hide Find, OccursAt;
    var tail := LastUpTo(text, |pattern| - 1);
    var k := |text| - |tail|;
    assert (text + rest)[k..] == tail + rest;
    forall i | 0 <= i < k
      ensures !OccursAt(text + rest, pattern, i)
    {
      OccursInPrefix(text, rest, pattern, i);
    }
    FindAfter(text + rest, pattern, k);
  }

  // ---------- openers ----------

  lemma OpenerShape(tag: string)
    requires tag in TAGS
    ensures |Opener(tag)| <= MAX_PARTIAL_KEEP && |Closer(tag)| == |Opener(tag)| + 1
    ensures forall i :: 0 <= i < |Opener(tag)| ==> (Opener(tag)[i] == '<' <==> i == 0)
  {
    assert tag == TAGS[0] || tag == TAGS[1];
  }

  lemma TagStartsWithBracket(text: string)
    requires TagAt(text).Some?
    ensures TagAt(text).value in TAGS && Opener(TagAt(text).value) <= text && text[0] == '<'
  {}

  // Whether an opener starts a text is settled once it cannot be a partial opener any more.
  lemma TagAtSettled(text: string, rest: string)
    requires TagAt(text).Some? || !PartialOpener(text)
    ensures TagAt(text + rest) == TagAt(text)
  {
    OpenerPrefix(text, rest, TAGS[0]);
    OpenerPrefix(text, rest, TAGS[1]);
    assert Opener(TAGS[0])[1] != Opener(TAGS[1])[1];
  }

  lemma OpenerPrefix(text: string, rest: string, tag: string)
    ensures Opener(tag) <= text ==> Opener(tag) <= text + rest
    ensures Opener(tag) <= text + rest && !(text <= Opener(tag)) ==> Opener(tag) <= text
  {
    var opener := Opener(tag);
    if |opener| <= |text| {
      PrefixOfLonger(opener, text, rest);
    } else if opener <= text + rest {
      assert opener[..|text|] == (text + rest)[..|text|] == text;
    }
  }

  lemma OpensInSuffix(text: string, k: nat, i: int)
    requires k <= |text| && k <= i
    ensures OpensAt(text, i) <==> OpensAt(text[k..], i - k)
  {
    if i <= |text| {
      assert text[i..] == text[k..][i - k..];
    }
  }

  lemma FindOpenerAfter(text: string, k: nat)
    requires k <= |text| && forall i :: 0 <= i < k ==> !OpensAt(text, i)
    ensures var r := FindOpener(text[k..]);
      FindOpener(text) == if r.None? then None else Some(r.value + k)
  {
    hide FindOpener, OpensAt;
    forall i | k <= i
      ensures OpensAt(text, i) <==> OpensAt(text[k..], i - k)
    {
      OpensInSuffix(text, k, i);
    }
    var r := FindOpener(text[k..]);
    if r.Some? {
      assert OpensAt(text, r.value + k);
      forall i | 0 <= i < r.value + k
        ensures !OpensAt(text, i)
      {
        if k <= i {
          assert !OpensAt(text[k..], i - k);
        }
      }
    }
  }

  lemma ConcatAssociative(a: string, b: string, c: string)
    ensures (a + b) + c == a + (b + c)
  {}

  lemma ScrubbedOnce(text: string)
    ensures FindOpener(text).None? ==> Scrubbed(text) == text
    ensures FindOpener(text).Some? ==>
      Scrubbed(text) == text[..FindOpener(text).value] + Cut(text[FindOpener(text).value..])
  {}

  lemma SplitTwice(text: string, a: nat, b: nat)
    requires a + b <= |text|
    ensures text[a..][b..] == text[a + b..] && text[..a] + text[a..][..b] == text[..a + b]
  {}

  lemma ScrubbedJoin(text: string, k: nat)
    requires k <= |text|
    requires var r := FindOpener(text[k..]);
      && (r.Some? ==> r.value + k <= |text|)
      && FindOpener(text) == (if r.None? then None else Some(r.value + k))
    ensures Scrubbed(text) == text[..k] + Scrubbed(text[k..])
  {
    hide *;
    var suffix := text[k..];
    var open := FindOpener(suffix);
    ScrubbedOnce(text);
    ScrubbedOnce(suffix);
    if open.None? {
      assert text == text[..k] + suffix;
    } else {
      var i := open.value;
      var span := Cut(suffix[i..]);
      SplitTwice(text, k, i);
      assert Scrubbed(text) == (text[..k] + suffix[..i]) + span;
      ConcatAssociative(text[..k], suffix[..i], span);
      assert Scrubbed(suffix) == suffix[..i] + span;
    }
  }

  // A text emits its front as it is when no opener starts in it.
  lemma ScrubbedAfter(text: string, k: nat)
    requires k <= |text| && forall i :: 0 <= i < k ==> !OpensAt(text, i)
    ensures Scrubbed(text) == text[..k] + Scrubbed(text[k..])
  {
    FindOpenerAfter(text, k);
    ScrubbedJoin(text, k);
  }

  lemma CutIsRemaining(text: string, tag: string, inner: string)
    requires TagAt(text) == Some(tag) && |Opener(tag)| <= |text| && inner == text[|Opener(tag)|..]
    ensures Cut(text) == Remaining(State("", Closer(tag)), inner)
  {
    ClosersAreNonEmpty(tag);
    hide TagAt, Opener, Closer, Find, Scrubbed;
    assert "" + inner == inner;
  }

  lemma ClosersAreNonEmpty(tag: string)
    ensures Closer(tag) != ""
  {}

  // At an opener the rest is what remains inside its span.
  lemma ScrubbedAtOpener(text: string)
    requires TagAt(text).Some?
    ensures var tag := TagAt(text).value;
      Scrubbed(text) == Remaining(State("", Closer(tag)), text[|Opener(tag)|..])
  {
    assert FindOpener(text) == Some(0);
    ScrubbedOnce(text);
    TagStartsWithBracket(text);
    var tag := TagAt(text).value;
    CutIsRemaining(text, tag, text[|Opener(tag)|..]);
    hide *;
    assert text[0..] == text;
    assert text[..0] + Cut(text) == Cut(text);
  }

  lemma NoBracketNoOpener(text: string, rest: string, k: nat)
    requires k <= |text| && forall i :: 0 <= i < k ==> text[i] != '<'
    ensures forall i :: 0 <= i < k ==> !OpensAt(text + rest, i)
  {
    forall i | 0 <= i < k
      ensures !OpensAt(text + rest, i)
    {
      assert (text + rest)[i..][0] == text[i];
    }
  }

  lemma FindBracket(text: string)
    ensures Find(text, "<").None? ==> forall i :: 0 <= i < |text| ==> text[i] != '<'
    ensures Find(text, "<").Some? ==>
      && Find(text, "<").value < |text| && text[Find(text, "<").value] == '<'
      && forall i :: 0 <= i < Find(text, "<").value ==> text[i] != '<'
  {
    forall i | 0 <= i < |text|
      ensures OccursAt(text, "<", i) <==> text[i] == '<'
    {}
    assert !OccursAt(text, "<", |text|);
  }

  // ---------- a round, a chunk, a stream ----------

  // Outside a span, at a bracket.
  lemma BracketTurn(buf: string, rest: string)
    requires buf != "" && buf[0] == '<'
    ensures TagAt(buf).Some? ==>
      Scrubbed(buf + rest) == Remaining(State(buf[|Opener(TagAt(buf).value)|..], Closer(TagAt(buf).value)), rest)
    ensures TagAt(buf).None? && !PartialOpener(buf) ==> Scrubbed(buf + rest) == "<" + Scrubbed(buf[1..] + rest)
  {
    hide Scrubbed, Find, PartialOpener, TagAt;
    if TagAt(buf).Some? {
      TagAtSettled(buf, rest);
      TagStartsWithBracket(buf);
      OpenerTurn(buf, rest, TagAt(buf).value);
    } else if !PartialOpener(buf) {
      TagAtSettled(buf, rest);
      BracketOnly(buf + rest);
      SliceOfConcat(buf, rest, 1);
    }
  }

  lemma OpenerTurn(buf: string, rest: string, tag: string)
    requires TagAt(buf + rest) == Some(tag) && Opener(tag) <= buf
    ensures Scrubbed(buf + rest) == Remaining(State(buf[|Opener(tag)|..], Closer(tag)), rest)
  {
    hide Scrubbed, Find, TagAt, Opener, Closer;
    ScrubbedAtOpener(buf + rest);
    SliceOfConcat(buf, rest, |Opener(tag)|);
    var inner := buf[|Opener(tag)|..];
    RemainingOfFed(State("", Closer(tag)), inner, rest);
    RemainingOfFed(State(inner, Closer(tag)), "", rest);
    assert "" + inner == inner && inner + "" == inner && "" + rest == rest;
  }

  // A text that starts with a bracket which opens nothing keeps it.
  lemma BracketOnly(text: string)
    requires text != "" && text[0] == '<' && TagAt(text).None?
    ensures Scrubbed(text) == "<" + Scrubbed(text[1..])
  {
    hide Scrubbed, TagAt;
    assert text[0..] == text && text[..1] == "<";
    ScrubbedAfter(text, 1);
  }

  lemma OutsideTurn(st: State, rest: string)
    requires st.buf != "" && st.token == ""
    ensures Remaining(st, rest) == Turn(st).out + Remaining(Turn(st).st, rest)
  {
    hide Scrubbed, Find, PartialOpener, TagAt;
    var text := st.buf + rest;
    var lt := Find(st.buf, "<");
    FindBracket(st.buf);
    var k := if lt.None? then |st.buf| else lt.value;
    NoBracketNoOpener(st.buf, rest, k);
    ScrubbedAfter(text, k);
    assert text[..k] == st.buf[..k];
    if lt.None? {
      assert text[k..] == "" + rest;
      assert st.buf[..k] == st.buf;
    } else {
      var buf := st.buf[k..];
      assert text[k..] == buf + rest;
      BracketTurn(buf, rest);
      assert (st.buf[..k] + "<") + Scrubbed(buf[1..] + rest) == st.buf[..k] + ("<" + Scrubbed(buf[1..] + rest));
    }
  }

  lemma InsideTurn(st: State, rest: string)
    requires st.buf != "" && IsToken(st.token) && st.token != ""
    ensures Remaining(st, rest) == Turn(st).out + Remaining(Turn(st).st, rest)
  {
    hide Find, Scrubbed, OccursAt;
    var close := Find(st.buf, st.token);
    if close.None? {
      TailIsEnough(st.buf, rest, st.token);
      var tail := LastUpTo(st.buf, |st.token| - 1);
      var k := |st.buf| - |tail|;
      assert (st.buf + rest)[k..] == tail + rest;
      var found := Find(tail + rest, st.token);
      if found.Some? {
        OccurrenceFits(tail + rest, st.token, found.value);
        assert (tail + rest)[found.value + |st.token|..] == (st.buf + rest)[found.value + k + |st.token|..];
      }
    } else {
      FoundStaysFound(st.buf, rest, st.token);
      OccurrenceFits(st.buf, st.token, close.value);
      var j := close.value + |st.token|;
      assert (st.buf + rest)[j..] == st.buf[j..] + rest;
    }
  }

  lemma {:induction false} DrainKeeps(st: State, rest: string)
    requires IsToken(st.token)
    ensures Remaining(st, rest) == Drain(st).out + Remaining(Drain(st).st, rest)
    decreases |st.buf|
  {
    hide Remaining;
    if st.buf != "" {
      if st.token == "" {
        OutsideTurn(st, rest);
      } else {
        InsideTurn(st, rest);
      }
      var round := Turn(st);
      if !round.halt {
        DrainKeeps(round.st, rest);
        assert round.out + (Drain(round.st).out + Remaining(Drain(round.st).st, rest))
            == (round.out + Drain(round.st).out) + Remaining(Drain(round.st).st, rest);
      }
    }
  }

  lemma RemainingOfFed(st: State, chunk: string, rest: string)
    ensures Remaining(st, chunk + rest) == Remaining(State(st.buf + chunk, st.token), rest)
  {
    hide Find, Scrubbed;
    assert st.buf + (chunk + rest) == (st.buf + chunk) + rest;
  }

  lemma FeedKeeps(st: State, chunk: string, rest: string)
    requires IsToken(st.token)
    ensures Remaining(st, chunk + rest)
         == FeedValue(st, chunk).out + Remaining(FeedValue(st, chunk).st, rest)
  {
    hide Drain, Remaining;
    if chunk == "" {
      assert chunk + rest == rest;
    } else {
      DrainKeeps(State(st.buf + chunk, st.token), rest);
      RemainingOfFed(st, chunk, rest);
    }
  }

  lemma DrainOfNothing(st: State, out: string)
    requires IsToken(st.token) && st.buf == ""
    ensures Drain(st).st == st && out + Drain(st).out == out
  {}

  lemma DrainUnrolls(st: State, out: string)
    requires IsToken(st.token) && st.buf != ""
    ensures var round := Turn(st);
      && Drain(st).st == (if round.halt then round.st else Drain(round.st).st)
      && out + Drain(st).out == (out + round.out) + if round.halt then "" else Drain(round.st).out
  {
    hide Turn;
    var round := Turn(st);
    if !round.halt {
      ConcatAssociative(out, round.out, Drain(round.st).out);
    }
  }

  // What a state between two chunks looks like.
  predicate Settled(st: State) {
    IsToken(st.token)
    && if st.token != "" then |st.buf| < |st.token| && Find(st.buf, st.token).None?
       else st.buf == "" || (PartialOpener(st.buf) && TagAt(st.buf).None?)
  }

  lemma TailHasNoToken(text: string, pattern: string)
    requires pattern != "" && Find(text, pattern).None?
    ensures Find(LastUpTo(text, |pattern| - 1), pattern).None?
  {
    var tail := LastUpTo(text, |pattern| - 1);
    if Find(tail, pattern).Some? {
      OccurrenceFits(tail, pattern, Find(tail, pattern).value);
    }
  }

  lemma NothingInEmpty(pattern: string)
    ensures pattern != "" ==> Find("", pattern).None?
  {}

  lemma {:induction false} DrainSettles(st: State)
    requires IsToken(st.token)
    ensures Settled(Drain(st).st)
    decreases |st.buf|
  {
    if st.buf == "" {
      NothingInEmpty(st.token);
    } else {
      var round := Turn(st);
      if !round.halt {
        DrainSettles(round.st);
      } else if st.token != "" {
        TailHasNoToken(st.buf, st.token);
      }
    }
  }

  // The text held back never exceeds the longest opener.
  lemma HeldBackIsShort(st: State)
    requires Settled(st)
    ensures |st.buf| <= MAX_PARTIAL_KEEP
  {
    OpenerShape(TAGS[0]);
    OpenerShape(TAGS[1]);
  }

  lemma FlushEmitsRemaining(st: State)
    requires Settled(st)
    ensures FlushValue(st) == Remaining(st, "")
  {
    assert st.buf + "" == st.buf;
    if st.token == "" && st.buf != "" {
      OpenerShape(TAGS[0]);
      OpenerShape(TAGS[1]);
      forall i | 0 <= i < |st.buf|
        ensures !OpensAt(st.buf, i)
      {
        if i == 0 {
          assert st.buf[0..] == st.buf;
        } else {
          assert st.buf[i] != '<';
          assert st.buf[i..][0] == st.buf[i];
        }
      }
      assert !OpensAt(st.buf, |st.buf|);
    }
  }

  lemma {:induction false} StreamEmitsRemaining(st: State, chunks: seq<string>)
    requires Settled(st)
    ensures Stream(st, chunks) == Remaining(st, Concat(chunks))
    decreases |chunks|
  {
    hide Remaining, FlushValue, Find, TagAt, PartialOpener, Drain;
    if chunks == [] {
      FlushEmitsRemaining(st);
    } else {
      var fed := FeedValue(st, chunks[0]);
      FeedKeeps(st, chunks[0], Concat(chunks[1..]));
      if chunks[0] != "" {
        DrainSettles(State(st.buf + chunks[0], st.token));
      }
      StreamEmitsRemaining(fed.st, chunks[1..]);
    }
  }

  /**
   However a text is cut into chunks, feeding them and flushing emits the scrubbed text.
   */
  lemma ChunkingDoesNotMatter(chunks: seq<string>)
    ensures Stream(State("", ""), chunks) == Scrubbed(Concat(chunks))
  {
    StreamEmitsRemaining(State("", ""), chunks);
    assert "" + Concat(chunks) == Concat(chunks);
  }

  // ---------- the scrubbed text, spelled out ----------

  lemma SpelledTags()
    ensures Opener(TAGS[0]) == "<memory-context>" && Closer(TAGS[0]) == "</memory-context>"
    ensures Opener(TAGS[1]) == "<context>" && Closer(TAGS[1]) == "</context>"
  {}

  // A text starts with a tag exactly if it starts with the opener of that tag.
  lemma TagAtIs(text: string, tag: string)
    ensures TagAt(text) == Some(tag) <==> tag in TAGS && Opener(tag) <= text
    ensures TagAt(text).None? <==> !("<memory-context>" <= text) && !("<context>" <= text)
  {
    SpelledTags();
    hide Opener;
    assert "<memory-context>"[1] == 'm' && "<context>"[1] == 'c';
  }

  predicate Has(text: string, pattern: string) {
    exists i :: 0 <= i <= |text| && pattern <= text[i..]
  }

  lemma HasNot(x: string, pattern: string)
    requires !Has(x, pattern)
    ensures Find(x, pattern).None? && forall i :: !OccursAt(x, pattern, i)
  {
    assert forall i :: 0 <= i <= |x| ==> !(pattern <= x[i..]);
  }

  // A closer behind x is the first one if x has none: it cannot begin in x.
  lemma FirstCloser(x: string, closer: string, y: string)
    requires !Has(x, closer) && |closer| > 1 && closer[0] == '<' && forall k :: 0 < k < |closer| ==> closer[k] != '<'
    ensures Find(x + (closer + y), closer) == Some(|x|)
  {
    hide Has;
    var text := x + (closer + y);
    HasNot(x, closer);
    assert text[|x|..] == closer + y && text[|x|] == '<';
    forall i | 0 <= i < |x| ensures !OccursAt(text, closer, i) {
      if i + |closer| <= |x| {
        OccursInPrefix(x, closer + y, closer, i);
      } else {
        assert text[i..][|x| - i] == text[|x|];
      }
    }
    FindIsLeftmost(text, closer, |x|);
  }

  lemma ClosedSpan(tag: string, x: string, y: string)
    requires tag in TAGS && !Has(x, Closer(tag))
    ensures Scrubbed(Opener(tag) + (x + (Closer(tag) + y))) == Scrubbed(y)
  {
    hide TagAt, Scrubbed, Find, Has, Opener, Closer, OccursAt;
    var inner := x + (Closer(tag) + y);
    var text := Opener(tag) + inner;
    TagAtIs(text, tag);
    ScrubbedAtOpener(text);
    CloserShape(tag);
    FirstCloser(x, Closer(tag), y);
    SliceOfConcat(Opener(tag), inner, |Opener(tag)|);
    assert text[|Opener(tag)|..] == "" + inner == inner;
    assert inner[|x| + |Closer(tag)|..] == y;
  }

  lemma OpenSpan(tag: string, x: string)
    requires tag in TAGS && !Has(x, Closer(tag))
    ensures Scrubbed(Opener(tag) + x) == ""
  {
    hide TagAt, Scrubbed, Find, Has, Opener, Closer, OccursAt;
    var text := Opener(tag) + x;
    TagAtIs(text, tag);
    ScrubbedAtOpener(text);
    CloserShape(tag);
    HasNot(x, Closer(tag));
    assert text[|Opener(tag)|..] == "" + x == x;
  }

  lemma SpanIsCut(a: string, tag: string, x: string, y: string)
    requires '<' !in a && tag in TAGS && !Has(x, Closer(tag))
    ensures Scrubbed(a + (Opener(tag) + (x + (Closer(tag) + y)))) == a + Scrubbed(y)
    ensures Scrubbed(a + (Opener(tag) + x)) == a
  {
    hide *;
    PlainFront(a, Opener(tag) + (x + (Closer(tag) + y)));
    PlainFront(a, Opener(tag) + x);
    ClosedSpan(tag, x, y);
    OpenSpan(tag, x);
    assert a + "" == a;
  }

  lemma CloserShape(tag: string)
    requires tag in TAGS
    ensures |Closer(tag)| > 1 && Closer(tag)[0] == '<' && forall k :: 0 < k < |Closer(tag)| ==> Closer(tag)[k] != '<'
  {
    assert tag == TAGS[0] || tag == TAGS[1];
  }

  lemma PlainFront(a: string, text: string)
    requires '<' !in a
    ensures Scrubbed(a + text) == a + Scrubbed(text)
  {
    hide Scrubbed;
    NoBracketNoOpener(a, text, |a|);
    ScrubbedAfter(a + text, |a|);
    assert (a + text)[|a|..] == text && (a + text)[..|a|] == a;
  }

  /**
   The scrubbed text in literal strings. Text without a bracket is kept; a span of either tag goes, up to the first
   closer of that tag or to the end; a bracket that starts no opener is kept.
   */
  lemma ScrubbedSpelledOut(a: string, x: string, y: string)
    requires '<' !in a
    ensures Scrubbed(a) == a
    ensures !Has(x, "</memory-context>") ==>
      && Scrubbed(a + ("<memory-context>" + (x + ("</memory-context>" + y)))) == a + Scrubbed(y)
      && Scrubbed(a + ("<memory-context>" + x)) == a
    ensures !Has(x, "</context>") ==>
      && Scrubbed(a + ("<context>" + (x + ("</context>" + y)))) == a + Scrubbed(y)
      && Scrubbed(a + ("<context>" + x)) == a
    ensures !("<memory-context>" <= "<" + y) && !("<context>" <= "<" + y) ==>
      Scrubbed(a + ("<" + y)) == a + ("<" + Scrubbed(y))
  {
    hide TagAt, Scrubbed, Has;
    SpelledTags();
    if !Has(x, "</memory-context>") {
      SpanIsCut(a, TAGS[0], x, y);
    }
    if !Has(x, "</context>") {
      SpanIsCut(a, TAGS[1], x, y);
    }
    NoBracketNoOpener(a, "", |a|);
    assert a + "" == a;
    PlainFront(a, "");
    ScrubbedOfNothing();
    if !("<memory-context>" <= "<" + y) && !("<context>" <= "<" + y) {
      TagAtIs("<" + y, "");
      BracketOnly("<" + y);
      PlainFront(a, "<" + y);
      assert ("<" + y)[1..] == y;
    }
  }

  lemma ScrubbedOfNothing()
    ensures Scrubbed("") == ""
  {}

  // ---------- the object ----------

  class StreamingContextScrubber {
    var buf: string
    var inside: bool
    var closeToken: string

    ghost predicate Valid()
      reads this
    {
      Settled(State(buf, closeToken)) && (inside <==> closeToken != "")
    }

    constructor ()
      ensures Valid() && buf == "" && closeToken == ""
    {
      buf, inside, closeToken := "", false, "";
    }

    // One round of the loop of Feed on a non-empty buffer.
    method FeedRound() returns (out: string, halt: bool)
      requires buf != "" && IsToken(closeToken) && (inside <==> closeToken != "")
      modifies this
      ensures Round(State(buf, closeToken), out, halt) == Turn(old(State(buf, closeToken)))
      ensures inside <==> closeToken != ""
    {
      hide Find, TagAt;
      if inside {
        var close := Find(buf, closeToken);
        if close.None? {
          var keep := if |buf| < |closeToken| - 1 then |buf| else |closeToken| - 1;
          buf := if keep > 0 then buf[|buf| - keep..] else "";
          return "", true;
        }
        OccurrenceFits(buf, closeToken, close.value);
        buf := buf[close.value + |closeToken|..];
        inside := false;
        closeToken := "";
        return "", false;
      }
      var lt := Find(buf, "<");
      if lt.None? {
        out := buf;
        buf := "";
        return out, true;
      }
      out := buf[..lt.value];
      buf := buf[lt.value..];
      var tag := TagAt(buf);
      if tag.Some? {
        TagStartsWithBracket(buf);
        inside := true;
        closeToken := Closer(tag.value);
        buf := buf[|Opener(tag.value)|..];
        return out, false;
      }
      if PartialOpener(buf) {
        // The code would go on past MAX_PARTIAL_KEEP characters, which a partial opener never exceeds.
        return out, true;
      }
      out := out + "<";
      buf := buf[1..];
      return out, false;
    }

    method Feed(chunk: string) returns (out: string)
      requires Valid()
      modifies this
      ensures Valid() && |buf| <= MAX_PARTIAL_KEEP
      ensures Output(State(buf, closeToken), out) == FeedValue(old(State(buf, closeToken)), chunk)
    {
      if chunk == "" {
        HeldBackIsShort(State(buf, closeToken));
        return "";
      }
      hide Turn, Drain, Settled;
      buf := buf + chunk;
      ghost var full := State(buf, closeToken);
      DrainSettles(full);
      HeldBackIsShort(Drain(full).st);
      out := "";
      assert Drain(full).out == out + Drain(full).out;
      while buf != ""
        invariant IsToken(closeToken) && (inside <==> closeToken != "")
        invariant Drain(full).st == Drain(State(buf, closeToken)).st
        invariant Drain(full).out == out + Drain(State(buf, closeToken)).out
        decreases |buf|
      {
        DrainUnrolls(State(buf, closeToken), out);
        var emitted, halt := FeedRound();
        out := out + emitted;
        if halt {
          assert out + "" == out;
          return out;
        }
      }
      DrainOfNothing(State(buf, closeToken), out);
    }

    method Flush() returns (out: string)
      requires Valid()
      modifies this
      ensures Valid() && buf == "" && closeToken == ""
      ensures out == FlushValue(old(State(buf, closeToken)))
    {
      if inside {
        buf, inside, closeToken := "", false, "";
        return "";
      }
      out, buf := buf, "";
    }
  }

  method Scrub(text: string) returns (out: string)
    ensures out == Scrubbed(text)
  {
    var scrubber := new StreamingContextScrubber();
    out := scrubber.Feed(text);
    var tail := scrubber.Flush();
    StreamOfOne(text);
    out := out + tail;
  }

  lemma StreamOfOne(text: string)
    ensures FeedValue(State("", ""), text).out + FlushValue(FeedValue(State("", ""), text).st) == Scrubbed(text)
  {
    ChunkingDoesNotMatter([text]);
    assert [text][1..] == [];
    assert Concat([text]) == text + "" == text;
  }
}
