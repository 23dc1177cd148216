/** Context compaction, sera/context/compressor.py. */
module Compressor {
  import opened Wrappers
  import opened Transcript

  const FENCE := "[CONTEXT COMPACTION — REFERENCE ONLY]"
  const COMPACTED := "[earlier reasoning compacted]"

  type Cost = Message -> nat
  type Summarise = seq<Message> -> string

  // ---------- the cut, on values ----------

  function TotalCost(ms: seq<Message>, cost: Cost): nat {
    if ms == [] then 0 else TotalCost(ms[..|ms| - 1], cost) + cost(ms[|ms| - 1])
  }

  function SystemHead(ms: seq<Message>): nat
    ensures SystemHead(ms) <= |ms|
  {
    if ms != [] && ms[0].role == System then 1 + SystemHead(ms[1..]) else 0
  }

  // Where the tail starts when messages are taken from the end while they fit; k is where it starts so far.
  function KeepFrom(body: seq<Message>, cost: Cost, budget: int, k: nat, tokens: nat): (r: nat)
    requires k <= |body|
    ensures r <= k
  {
    if k == 0 || (tokens + cost(body[k - 1]) > budget && k < |body|) then k
    else KeepFrom(body, cost, budget, k - 1, tokens + cost(body[k - 1]))
  }

  function SkipResults(body: seq<Message>, k: nat): (r: nat)
    requires k <= |body|
    ensures k <= r <= |body|
    decreases |body| - k
  {
    if k < |body| && body[k].role == Tool then SkipResults(body, k + 1) else k
  }

  // Where the kept tail starts: behind leading results, or three messages from the end if nothing else is left.
  function CutPoint(body: seq<Message>, cost: Cost, budget: int): (r: nat)
    ensures r <= |body|
  {
    var k := SkipResults(body, KeepFrom(body, cost, budget, |body|, 0));
    if k < |body| then k else if |body| < 3 then 0 else |body| - 3
  }

  function ResultIds(ms: seq<Message>): set<string> {
    set i | 0 <= i < |ms| && ms[i].role == Tool :: ms[i].toolCallId
  }

  function IdSet(ids: seq<string>): set<string> {
    set id | id in ids
  }

  // The tail starts with an assistant message not all of whose calls have a result in the tail.
  predicate StartsOrphaned(tail: seq<Message>) {
    tail != [] && tail[0].role == Assistant && tail[0].calls != [] && !(IdSet(tail[0].calls) <= ResultIds(tail))
  }

  // Such a message loses all its calls.
  function StripOrphan(tail: seq<Message>): seq<Message> {
    if StartsOrphaned(tail)
    then [tail[0].(calls := [], content := if tail[0].content == "" then COMPACTED else tail[0].content)] + tail[1..]
    else tail
  }

  function KeptTail(body: seq<Message>, cost: Cost, budget: int): seq<Message> {
    var k := SkipResults(body, KeepFrom(body, cost, budget, |body|, 0));
    if k < |body| then StripOrphan(body[k..]) else body[CutPoint(body, cost, budget)..]
  }

  function SummaryMessage(text: string, strip: string -> string): Message {
    AssistantMessage(if FENCE <= text then text else FENCE + "\n\n" + strip(text), [])
  }

  // int(x): truncation toward zero.
  function Truncate(x: real): int {
    if x >= 0.0 then x.Floor else -((-x).Floor)
  }

  // None of the early returns applies: enough messages, over the threshold, and something to summarise.
  predicate Compacts(
    ms: seq<Message>, cost: Cost, budget: int, targetRatio: real, tailRatio: real, minMessages: int)
  {
    var body := ms[SystemHead(ms)..];
    |body| >= minMessages && TotalCost(ms, cost) > Truncate(budget as real * targetRatio)
    && CutPoint(body, cost, Truncate(budget as real * tailRatio)) > 0
  }

  function CompactedView(
    ms: seq<Message>, cost: Cost, summarise: Summarise, strip: string -> string,
    budget: int, targetRatio: real, tailRatio: real, minMessages: int): seq<Message>
  {
    var body := ms[SystemHead(ms)..];
    var tailBudget := Truncate(budget as real * tailRatio);
    var cut := CutPoint(body, cost, tailBudget);
    if !Compacts(ms, cost, budget, targetRatio, tailRatio, minMessages) then ms
    else ms[..SystemHead(ms)] + [SummaryMessage(summarise(body[..cut]), strip)] + KeptTail(body, cost, tailBudget)
  }

  // ---------- the algorithm ----------

  // The walk from the end of the body.
  method WalkBack(body: seq<Message>, cost: Cost, tailBudget: int) returns (tail: seq<Message>)
    ensures tail == body[KeepFrom(body, cost, tailBudget, |body|, 0)..]
  {
    tail := [];
    var tailTokens: nat := 0;
    while |tail| < |body|
      invariant |tail| <= |body| && tail == body[|body| - |tail|..]
      invariant KeepFrom(body, cost, tailBudget, |body|, 0)
             == KeepFrom(body, cost, tailBudget, |body| - |tail|, tailTokens)
      decreases |body| - |tail|
    {
      var m := body[|body| - |tail| - 1];
      if tailTokens + cost(m) > tailBudget && tail != [] {
        break;
      }
      tail := [m] + tail;
      tailTokens := tailTokens + cost(m);
    }
  }

  method DropLeadingResults(body: seq<Message>, start: nat) returns (tail: seq<Message>)
    requires start <= |body|
    ensures tail == body[SkipResults(body, start)..]
  {
    tail := body[start..];
    while tail != [] && tail[0].role == Tool
      invariant |tail| <= |body| && tail == body[|body| - |tail|..]
      invariant SkipResults(body, start) == SkipResults(body, |body| - |tail|)
    {
      tail := tail[1..];
    }
  }

  lemma StripIs(tail: seq<Message>)
    ensures StripOrphan(tail) ==
            if tail == [] || tail[0].role != Assistant || tail[0].calls == [] ||
               (set id | id in tail[0].calls) <= set i | 0 <= i < |tail| && tail[i].role == Tool :: tail[i].toolCallId
            then tail
            else
              var content := if tail[0].content == "" then COMPACTED else tail[0].content;
              [tail[0].(calls := [], content := content)] + tail[1..]
  {}

  // The walk, the orphan repair and the fallback.
  method SelectTail(body: seq<Message>, cost: Cost, tailBudget: int) returns (tail: seq<Message>)
    ensures tail == KeptTail(body, cost, tailBudget)
    ensures |tail| == |body| - CutPoint(body, cost, tailBudget)
  {
    hide KeepFrom, SkipResults, StripOrphan;
    tail := WalkBack(body, cost, tailBudget);
    tail := DropLeadingResults(body, |body| - |tail|);
    StripIs(tail);
    if tail != [] && tail[0].role == Assistant && tail[0].calls != [] {
      var wanted := set id | id in tail[0].calls;
      var answered := set i | 0 <= i < |tail| && tail[i].role == Tool :: tail[i].toolCallId;
      if !(wanted <= answered) {
        var first := tail[0].(calls := []);
        if first.content == "" {
          first := first.(content := COMPACTED);
        }
        tail := [first] + tail[1..];
      }
    }
    if tail == [] {
      tail := if |body| < 3 then body else body[|body| - 3..];
    }
  }

  method Measure(messages: seq<Message>, cost: Cost) returns (total: nat)
    ensures total == TotalCost(messages, cost)
  {
    total := 0;
    for i := 0 to |messages|
      invariant total == TotalCost(messages[..i], cost)
    {
      assert messages[..i + 1][..i] == messages[..i];
      total := total + cost(messages[i]);
    }
    assert messages[..|messages|] == messages;
  }

  lemma SystemHeadFrom(ms: seq<Message>, k: nat)
    requires k < |ms|
    ensures SystemHead(ms[k..]) == if ms[k].role == System then 1 + SystemHead(ms[k + 1..]) else 0
  {
    assert ms[k..][1..] == ms[k + 1..];
  }

  lemma SystemHeadOfNothing(ms: seq<Message>)
    ensures ms[0..] == ms && SystemHead(ms[|ms|..]) == 0
  {}

  lemma HeadStep(ms: seq<Message>, k: nat)
    requires k < |ms|
    ensures ms[..k] + [ms[k]] == ms[..k + 1]
  {}

  method CompactSession(
    messages: seq<Message>, cost: Cost, summarise: Summarise, strip: string -> string,
    budgetTokens: int, targetRatio: real, tailRatio: real, minMessages: int) returns (view: seq<Message>)
    ensures view == CompactedView(messages, cost, summarise, strip, budgetTokens, targetRatio, tailRatio, minMessages)
  {
    hide SystemHead, KeptTail, CutPoint, TotalCost, SummaryMessage;
    if |messages| < minMessages {
      return messages;
    }
    var current := Measure(messages, cost);
    if current <= Truncate(budgetTokens as real * targetRatio) {
      return messages;
    }

    var head: seq<Message> := [];
    SystemHeadOfNothing(messages);
    while |head| < |messages| && messages[|head|].role == System
      invariant |head| <= |messages| && head == messages[..|head|]
      invariant SystemHead(messages) == |head| + SystemHead(messages[|head|..])
    {
      SystemHeadFrom(messages, |head|);
      HeadStep(messages, |head|);
      head := head + [messages[|head|]];
    }
    if |head| < |messages| {
      SystemHeadFrom(messages, |head|);
    }
    var body := messages[|head|..];
    if |body| < minMessages {
      return messages;
    }

    var tailBudget := Truncate(budgetTokens as real * tailRatio);
    var tail := SelectTail(body, cost, tailBudget);
    var middle := body[..|body| - |tail|];
    if middle == [] {
      return messages;
    }
    view := head + [SummaryMessage(summarise(middle), strip)] + tail;
  }

  // ---------- what compaction keeps ----------

  lemma {:induction false} TotalCostOfFront(ms: seq<Message>, cost: Cost, m: Message)
    ensures TotalCost([m] + ms, cost) == cost(m) + TotalCost(ms, cost)
  {
    if ms == [] {
      assert ([m] + ms)[..0] == [];
    } else {
      assert ([m] + ms)[..|ms|] == [m] + ms[..|ms| - 1];
      TotalCostOfFront(ms[..|ms| - 1], cost, m);
    }
  }

  lemma OneMoreCosts(body: seq<Message>, cost: Cost, k: nat)
    requires 0 < k <= |body|
    ensures TotalCost(body[k - 1..], cost) == TotalCost(body[k..], cost) + cost(body[k - 1])
  {
    assert body[k - 1..] == [body[k - 1]] + body[k..];
    TotalCostOfFront(body[k..], cost, body[k - 1]);
  }

  // Before the repair the tail fits its budget unless it is one message, and it is as long as that allows.
  lemma {:induction false} TailFits(body: seq<Message>, cost: Cost, budget: int, k: nat, tokens: nat)
    requires k <= |body| && tokens == TotalCost(body[k..], cost)
    requires |body| - k <= 1 || tokens <= budget
    ensures var start := KeepFrom(body, cost, budget, k, tokens);
      && (|body| - start <= 1 || TotalCost(body[start..], cost) <= budget)
      && (start == 0 || TotalCost(body[start - 1..], cost) > budget)
      && (k < |body| || body == [] || start < |body|)
  {
    hide TotalCost;
    if k > 0 {
      OneMoreCosts(body, cost, k);
      if k == |body| || tokens + cost(body[k - 1]) <= budget {
        TailFits(body, cost, budget, k - 1, tokens + cost(body[k - 1]));
      }
    }
  }

  lemma TailFitsBudget(body: seq<Message>, cost: Cost, budget: int)
    ensures var start := KeepFrom(body, cost, budget, |body|, 0);
      && (|body| - start <= 1 || TotalCost(body[start..], cost) <= budget)
      && (start == 0 || TotalCost(body[start - 1..], cost) > budget)
      && (body == [] || start < |body|)
  {
    assert body[|body|..] == [];
    TailFits(body, cost, budget, |body|, 0);
  }

  // int() drops the fraction.
  lemma TruncateIs(x: real)
    ensures x >= 0.0 ==> Truncate(x) as real <= x < Truncate(x) as real + 1.0
    ensures x <= 0.0 ==> Truncate(x) as real - 1.0 < x <= Truncate(x) as real
  {}

  lemma {:induction false} SystemHeadIs(ms: seq<Message>)
    ensures forall i :: 0 <= i < SystemHead(ms) ==> ms[i].role == System
    ensures SystemHead(ms) < |ms| ==> ms[SystemHead(ms)].role != System
  {
    if ms != [] && ms[0].role == System {
      SystemHeadIs(ms[1..]);
    }
  }

  // The transcript comes back as it is if it or its body is short, or if it costs no more than the threshold.
  lemma EarlyReturns(
    ms: seq<Message>, cost: Cost, summarise: Summarise, strip: string -> string,
    budget: int, targetRatio: real, tailRatio: real, minMessages: int)
    ensures var view := CompactedView(ms, cost, summarise, strip, budget, targetRatio, tailRatio, minMessages);
            var head, body := SystemHead(ms), ms[SystemHead(ms)..];
            var cut := CutPoint(body, cost, Truncate(budget as real * tailRatio));
      if |ms| < minMessages || TotalCost(ms, cost) <= Truncate(budget as real * targetRatio) || |body| < minMessages
         || cut == 0
      then view == ms
      else |view| > head && view[..head] == ms[..head] && view[head] == SummaryMessage(summarise(body[..cut]), strip)
  {
    hide SummaryMessage, KeptTail, CutPoint, TotalCost, SystemHead, Truncate;
  }

  // The summary bears the fence in front, once.
  lemma SummaryIsFenced(text: string, strip: string -> string)
    ensures var m := SummaryMessage(text, strip);
      && m.role == Assistant && m.calls == []
      && m.content == if "[CONTEXT COMPACTION — REFERENCE ONLY]" <= text then text
                      else "[CONTEXT COMPACTION — REFERENCE ONLY]" + "\n\n" + strip(text)
  {}

  // Same message up to the calls a repair takes away.
  predicate SameButCalls(kept: Message, original: Message) {
    kept.role == original.role && kept.toolCallId == original.toolCallId
    && (kept == original
        || (kept.calls == [] && kept.content == if original.content == "" then COMPACTED else original.content))
  }

  /**
   Nothing is lost or reordered: the view is either the transcript itself, or the system head, one fenced
   summary of the front of the body, and the rest of the body, of which only the first message may have
   lost its calls.
   */
  lemma EachMessageOnce(
    ms: seq<Message>, cost: Cost, summarise: Summarise, strip: string -> string,
    budget: int, targetRatio: real, tailRatio: real, minMessages: int)
    returns (cut: nat)
    ensures cut <= |ms| - SystemHead(ms)
    ensures var view := CompactedView(ms, cost, summarise, strip, budget, targetRatio, tailRatio, minMessages);
            var head, body := SystemHead(ms), ms[SystemHead(ms)..];
      view == ms
      || (&& |view| == head + 1 + |body| - cut && cut > 0
          && view[..head] == ms[..head]
          && view[head].role == Assistant && view[head].calls == [] && FENCE <= view[head].content
          && view[head] == SummaryMessage(summarise(body[..cut]), strip)
          && (cut < |body| ==> SameButCalls(view[head + 1], body[cut]))
          && view[head + 1..][if cut < |body| then 1 else 0..] == body[if cut < |body| then cut + 1 else cut..])
  {
    var head, body := ms[..SystemHead(ms)], ms[SystemHead(ms)..];
    var tailBudget := Truncate(budget as real * tailRatio);
    cut := CutPoint(body, cost, tailBudget);
    KeptTailShape(body, cost, tailBudget);
    hide CutPoint, KeptTail, SystemHead;
    var tail := KeptTail(body, cost, tailBudget);
    var view := head + [SummaryMessage(summarise(body[..cut]), strip)] + tail;
    assert view[|head| + 1..] == tail;
    assert view[..|head|] == head;
  }

  lemma KeptTailShape(body: seq<Message>, cost: Cost, budget: int)
    ensures var cut, tail := CutPoint(body, cost, budget), KeptTail(body, cost, budget);
      && |tail| == |body| - cut
      && (tail != [] ==> SameButCalls(tail[0], body[cut]) && tail[1..] == body[cut + 1..])
  {
    hide KeepFrom, SkipResults, ResultIds;
  }

  // ---------- validity of the view ----------

  predicate ResultIsCalledFor(view: seq<Message>, i: nat) {
    i < |view| && exists c :: 0 <= c < i && view[c].role == Assistant && view[i].toolCallId in view[c].calls
  }

  predicate CallHasResult(view: seq<Message>, c: nat, id: string) {
    c < |view| && exists i :: c < i < |view| && view[i].role == Tool && view[i].toolCallId == id
  }

  // What a provider asks of a request: no result without its call and no call without its result.
  ghost predicate ValidRequest(view: seq<Message>) {
    (forall i: nat :: i < |view| && view[i].role == Tool ==> ResultIsCalledFor(view, i))
    && forall c: nat, id :: c < |view| && view[c].role == Assistant && id in view[c].calls ==>
        CallHasResult(view, c, id)
  }

  lemma PairedIsValid(ms: seq<Message>)
    requires Paired(ms)
    ensures ValidRequest(ms)
  {
    PairedMeaning(ms);
    forall i: nat | i < |ms| && ms[i].role == Tool
      ensures ResultIsCalledFor(ms, i)
    {
      var c: nat :| ResultOf(ms, i, c);
      assert ms[i].toolCallId in ms[c].calls;
    }
    forall c: nat, id | c < |ms| && ms[c].role == Assistant && id in ms[c].calls
      ensures CallHasResult(ms, c, id)
    {
      var j :| 0 <= j < |ms[c].calls| && ms[c].calls[j] == id;
      AnswerAt(ms, c, c + 1 + j);
    }
  }

  // Messages that neither call nor answer change nothing in front of a transcript.
  predicate Silent(ms: seq<Message>) {
    forall m :: m in ms ==> m.role != Tool && (m.role == Assistant ==> m.calls == [])
  }

  lemma SilentIsPaired(ms: seq<Message>)
    requires Silent(ms)
    ensures Paired(ms)
  {
    if ms != [] {
      SilentIsPaired(ms[..|ms| - 1]);
    }
  }

  // Behind silent messages, the rest of a paired transcript is valid exactly if it does not start with a result.
  lemma CutIsValid(front: seq<Message>, body: seq<Message>, cut: nat)
    requires Silent(front) && Paired(body) && cut <= |body|
    ensures ValidRequest(front + body[cut..]) <==> (cut == |body| || body[cut].role != Tool)
  {
    var view := front + body[cut..];
    SilentIsPaired(front);
    CutOfPaired(body, cut);
    if cut == |body| || body[cut].role != Tool {
      OwedOfConcat(front, body[cut..]);
      PairedIsValid(view);
    } else {
      assert view[|front|] == body[cut];
      assert forall c :: 0 <= c < |front| ==> view[c] == front[c] && front[c] in front;
      assert !ResultIsCalledFor(view, |front|);
    }
  }

  lemma HeadIsSilent(ms: seq<Message>)
    ensures Silent(ms[..SystemHead(ms)])
  {
    if ms != [] && ms[0].role == System {
      HeadIsSilent(ms[1..]);
      assert ms[..SystemHead(ms)] == [ms[0]] + ms[1..][..SystemHead(ms[1..])];
    }
  }

  // In a paired body the kept calls keep their results, so nothing is stripped.
  lemma NothingToStrip(body: seq<Message>, cut: nat)
    requires Paired(body) && cut < |body| && body[cut].role != Tool
    ensures StripOrphan(body[cut..]) == body[cut..]
  {
    var tail := body[cut..];
    CutOfPaired(body, cut);
    PairedIsValid(tail);
    if tail[0].role == Assistant {
      forall id | id in tail[0].calls
        ensures id in ResultIds(tail)
      {
        assert CallHasResult(tail, 0, id);
        var i :| 0 < i < |tail| && tail[i].role == Tool && tail[i].toolCallId == id;
        assert tail[i].toolCallId in ResultIds(tail);
      }
    }
  }

  lemma {:induction false} SkipResultsStops(body: seq<Message>, k: nat)
    requires k <= |body|
    ensures var r := SkipResults(body, k);
      (r < |body| ==> body[r].role != Tool) && forall i :: k <= i < r ==> body[i].role == Tool
    decreases |body| - k
  {
    if k < |body| && body[k].role == Tool {
      SkipResultsStops(body, k + 1);
    }
  }

  // The code's own view of its guard: the kept suffix has a message that is not a result,
  // or the fallback of three messages does not start with one.
  predicate CutsCleanly(body: seq<Message>, cost: Cost, budget: int) {
    var start := KeepFrom(body, cost, budget, |body|, 0);
    (exists i :: start <= i < |body| && body[i].role != Tool)
    || |body| < 3 || body[|body| - 3].role != Tool
  }

  lemma CutsCleanlyMeaning(body: seq<Message>, cost: Cost, budget: int)
    requires CutPoint(body, cost, budget) > 0
    ensures var cut := CutPoint(body, cost, budget);
      cut < |body| && (CutsCleanly(body, cost, budget) <==> body[cut].role != Tool)
  {
    var start := KeepFrom(body, cost, budget, |body|, 0);
    SkipResultsStops(body, start);
    TailFitsBudget(body, cost, budget);
  }

  lemma TailIsKept(body: seq<Message>, cost: Cost, budget: int)
    requires Paired(body)
    ensures KeptTail(body, cost, budget) == body[CutPoint(body, cost, budget)..]
  {
    var start := KeepFrom(body, cost, budget, |body|, 0);
    var k := SkipResults(body, start);
    SkipResultsStops(body, start);
    if k < |body| {
      NothingToStrip(body, k);
    }
  }

  /**
   Compaction of a paired transcript gives a valid request exactly when it cuts cleanly. The one failing
   family is a kept suffix of results only, whose fallback of three messages starts with a result.
   */
  lemma CompactionKeepsValidity(
    ms: seq<Message>, cost: Cost, summarise: Summarise, strip: string -> string,
    budget: int, targetRatio: real, tailRatio: real, minMessages: int)
    requires Paired(ms)
    ensures var body := ms[SystemHead(ms)..];
            var view := CompactedView(ms, cost, summarise, strip, budget, targetRatio, tailRatio, minMessages);
            var tailBudget := Truncate(budget as real * tailRatio);
      ValidRequest(view) <==>
      !Compacts(ms, cost, budget, targetRatio, tailRatio, minMessages) || CutsCleanly(body, cost, tailBudget)
  {
    hide KeptTail, CutPoint, CutsCleanly, ValidRequest, Paired, TotalCost, SummaryMessage, KeepFrom, SystemHead;
    var head, body := ms[..SystemHead(ms)], ms[SystemHead(ms)..];
    var tailBudget := Truncate(budget as real * tailRatio);
    var view := CompactedView(ms, cost, summarise, strip, budget, targetRatio, tailRatio, minMessages);
    PairedIsValid(ms);
    if Compacts(ms, cost, budget, targetRatio, tailRatio, minMessages) {
      var cut := CutPoint(body, cost, tailBudget);
      BodyIsPaired(ms);
      TailIsKept(body, cost, tailBudget);
      CutsCleanlyMeaning(body, cost, tailBudget);
      var summary := SummaryMessage(summarise(body[..cut]), strip);
      SummaryIsSilent(summarise(body[..cut]), strip);
      HeadIsSilent(ms);
      assert Silent(head + [summary]);
      CutIsValid(head + [summary], body, cut);
    }
  }

  lemma SummaryIsSilent(text: string, strip: string -> string)
    ensures Silent([SummaryMessage(text, strip)])
  {}

  lemma BodyIsPaired(ms: seq<Message>)
    requires Paired(ms)
    ensures Paired(ms[SystemHead(ms)..])
  {
    HeadIsSilent(ms);
    SilentIsPaired(ms[..SystemHead(ms)]);
    assert ms[..SystemHead(ms)] + ms[SystemHead(ms)..] == ms;
    OwedOfConcat(ms[..SystemHead(ms)], ms[SystemHead(ms)..]);
  }

  // ---------- transcripts whose results may come late ----------

  ghost predicate AnswersItself(ms: seq<Message>) {
    forall c: nat, id :: c < |ms| && ms[c].role == Assistant && id in ms[c].calls ==> CallHasResult(ms, c, id)
  }

  ghost predicate IdsUsedOnce(ms: seq<Message>) {
    (forall c: nat, d: nat, id ::
       c < |ms| && d < |ms| && ms[c].role == Assistant && ms[d].role == Assistant
           && id in ms[c].calls && id in ms[d].calls
       ==> c == d)
    && forall i: nat, j: nat ::
         i < |ms| && j < |ms| && ms[i].role == Tool && ms[j].role == Tool && ms[i].toolCallId == ms[j].toolCallId
         ==> i == j
  }

  // Every result has its call in front of it. A session keeps this even if a turn breaks off between two results.
  ghost predicate ResultsAreCalled(ms: seq<Message>) {
    forall i: nat :: i < |ms| && ms[i].role == Tool ==> ResultIsCalledFor(ms, i)
  }

  lemma ValidIs(ms: seq<Message>)
    ensures ValidRequest(ms) <==> ResultsAreCalled(ms) && AnswersItself(ms)
  {}

  lemma CallInSuffix(ms: seq<Message>, cut: nat, c: nat, id: string)
    requires cut <= c && CallHasResult(ms, c, id)
    ensures CallHasResult(ms[cut..], c - cut, id)
  {
    var i :| c < i < |ms| && ms[i].role == Tool && ms[i].toolCallId == id;
    assert ms[cut..][i - cut] == ms[i];
  }

  lemma LateCallsKeepResults(body: seq<Message>, cut: nat)
    requires ValidRequest(body) && cut <= |body|
    ensures AnswersItself(body[cut..])
    ensures StripOrphan(body[cut..]) == body[cut..]
  {
    var tail := body[cut..];
    forall c: nat, id | c < |tail| && tail[c].role == Assistant && id in tail[c].calls
      ensures CallHasResult(tail, c, id)
    {
      assert tail[c] == body[c + cut];
      CallInSuffix(body, cut, c + cut, id);
    }
    if tail != [] && tail[0].role == Assistant {
      forall id | id in tail[0].calls
        ensures id in ResultIds(tail)
      {
        assert CallHasResult(tail, 0, id);
        var i :| 0 < i < |tail| && tail[i].role == Tool && tail[i].toolCallId == id;
        assert tail[i].toolCallId in ResultIds(tail);
      }
    }
  }

  /**
   For a valid body in which results may come late and each id is used once, a kept tail is valid exactly
   when the summarised front answers all its own calls.
   */
  lemma LateResultsCut(body: seq<Message>, cut: nat)
    requires ValidRequest(body) && IdsUsedOnce(body) && cut <= |body|
    ensures ValidRequest(body[cut..]) <==> AnswersItself(body[..cut])
  {
    LateCallsKeepResults(body, cut);
    if AnswersItself(body[..cut]) {
      AnsweredFrontLeavesNone(body, cut);
    }
    if ValidRequest(body[cut..]) {
      ValidTailOwesNothing(body, cut);
    }
  }

  lemma AnsweredFrontLeavesNone(body: seq<Message>, cut: nat)
    requires ValidRequest(body) && IdsUsedOnce(body) && cut <= |body| && AnswersItself(body[..cut])
    requires AnswersItself(body[cut..])
    ensures ValidRequest(body[cut..])
  {
    hide IdsUsedOnce, AnswersItself, CallHasResult;
    var tail := body[cut..];
    forall i: nat | i < |tail| && tail[i].role == Tool
      ensures ResultIsCalledFor(tail, i)
    {
      assert tail[i] == body[i + cut];
      var c := CalledBehind(body, cut, i + cut);
      assert tail[c - cut] == body[c];
    }
    ValidIs(tail);
  }

  // A result behind the cut belongs to a call behind it, if the messages in front answer their own calls.
  lemma CalledBehind(body: seq<Message>, cut: nat, i: nat) returns (c: nat)
    requires ValidRequest(body) && IdsUsedOnce(body) && cut <= i < |body| && AnswersItself(body[..cut])
    requires body[i].role == Tool
    ensures cut <= c < i && body[c].role == Assistant && body[i].toolCallId in body[c].calls
  {
    hide IdsUsedOnce, AnswersItself, CallHasResult;
    assert ResultIsCalledFor(body, i);
    c :| 0 <= c < i && body[c].role == Assistant && body[i].toolCallId in body[c].calls;
    if c < cut {
      var k := AnsweredInFrontPart(body, cut, c, body[i].toolCallId);
      OneResult(body, k, i);
    }
  }

  lemma AnsweredInFrontPart(body: seq<Message>, cut: nat, c: nat, id: string) returns (k: nat)
    requires c < cut <= |body| && AnswersItself(body[..cut]) && body[c].role == Assistant && id in body[c].calls
    ensures k < cut && body[k].role == Tool && body[k].toolCallId == id
  {
    var front := body[..cut];
    assert front[c] == body[c] && CallHasResult(front, c, id);
    k :| c < k < cut && front[k].role == Tool && front[k].toolCallId == id;
    assert body[k] == front[k];
  }

  lemma OneResult(ms: seq<Message>, i: nat, j: nat)
    requires IdsUsedOnce(ms) && i < |ms| && j < |ms| && ms[i].role == Tool && ms[j].role == Tool
    requires ms[i].toolCallId == ms[j].toolCallId
    ensures i == j
  {}

  lemma OneCall(ms: seq<Message>, c: nat, d: nat, id: string)
    requires IdsUsedOnce(ms) && c < |ms| && d < |ms| && ms[c].role == Assistant && ms[d].role == Assistant
    requires id in ms[c].calls && id in ms[d].calls
    ensures c == d
  {}

  lemma ValidTailOwesNothing(body: seq<Message>, cut: nat)
    requires ValidRequest(body) && IdsUsedOnce(body) && cut <= |body| && ValidRequest(body[cut..])
    ensures AnswersItself(body[..cut])
  {
    hide IdsUsedOnce, ValidRequest, CallHasResult;
    var middle := body[..cut];
    forall c: nat, id | c < |middle| && middle[c].role == Assistant && id in middle[c].calls
      ensures CallHasResult(middle, c, id)
    {
      assert body[c] == middle[c];
      var k := AnsweredInside(body, cut, c, id);
      ResultInPrefix(body, cut, c, k, id);
    }
  }

  lemma ResultInPrefix(ms: seq<Message>, n: nat, c: nat, k: nat, id: string)
    requires c < k < n <= |ms| && ms[k].role == Tool && ms[k].toolCallId == id
    ensures CallHasResult(ms[..n], c, id)
  {
    assert ms[..n][k] == ms[k];
  }

  // The result of a call in front of the cut is there too, if the messages behind are valid by themselves.
  lemma AnsweredInside(body: seq<Message>, cut: nat, c: nat, id: string) returns (k: nat)
    requires ValidRequest(body) && IdsUsedOnce(body) && c < cut <= |body| && ValidRequest(body[cut..])
    requires body[c].role == Assistant && id in body[c].calls
    ensures c < k < cut && body[k].role == Tool && body[k].toolCallId == id
  {
    hide IdsUsedOnce;
    assert CallHasResult(body, c, id);
    k :| c < k < |body| && body[k].role == Tool && body[k].toolCallId == id;
    if cut <= k {
      var d := CallInTail(body, cut, k);
      OneCall(body, c, d, id);
    }
  }

  lemma CallInTail(body: seq<Message>, cut: nat, k: nat) returns (d: nat)
    requires cut <= k < |body| && body[k].role == Tool && ValidRequest(body[cut..])
    ensures cut <= d < k && body[d].role == Assistant && body[k].toolCallId in body[d].calls
  {
    hide CallHasResult;
    var tail := body[cut..];
    InTail(body, cut, k);
    assert ResultIsCalledFor(tail, k - cut);
    var e :| 0 <= e < k - cut && tail[e].role == Assistant && tail[k - cut].toolCallId in tail[e].calls;
    d := cut + e;
    InTail(body, cut, d);
  }

  lemma InTail(ms: seq<Message>, cut: nat, k: nat)
    requires cut <= k < |ms|
    ensures ms[cut..][k - cut] == ms[k]
  {}

  lemma SilentInFront(front: seq<Message>, ms: seq<Message>)
    requires Silent(front)
    ensures ValidRequest(front + ms) <==> ValidRequest(ms)
  {
    hide ValidRequest;
    if ValidRequest(ms) {
      SilentAdded(front, ms);
    }
    if ValidRequest(front + ms) {
      SilentDropped(front, ms);
    }
  }

  lemma SilentAdded(front: seq<Message>, ms: seq<Message>)
    requires Silent(front) && ValidRequest(ms)
    ensures ValidRequest(front + ms)
  {
    hide ResultIsCalledFor, CallHasResult;
    var all, n := front + ms, |front|;
    forall i: nat | i < |all| && all[i].role == Tool ensures ResultIsCalledFor(all, i) {
      BehindSilent(front, ms, i);
      CalledForInFront(front, ms, i - n);
    }
    forall c: nat, id | c < |all| && all[c].role == Assistant && id in all[c].calls ensures CallHasResult(all, c, id) {
      BehindSilent(front, ms, c);
      AnsweredInFront(front, ms, c - n, id);
    }
  }

  lemma SilentDropped(front: seq<Message>, ms: seq<Message>)
    requires Silent(front) && ValidRequest(front + ms)
    ensures ValidRequest(ms)
  {
    hide ResultIsCalledFor, CallHasResult;
    var all, n := front + ms, |front|;
    forall i: nat | i < |ms| && ms[i].role == Tool ensures ResultIsCalledFor(ms, i) {
      assert all[n + i] == ms[i];
      CalledForInFront(front, ms, i);
    }
    forall c: nat, id | c < |ms| && ms[c].role == Assistant && id in ms[c].calls ensures CallHasResult(ms, c, id) {
      assert all[n + c] == ms[c];
      AnsweredInFront(front, ms, c, id);
    }
  }

  lemma BehindSilent(front: seq<Message>, ms: seq<Message>, k: nat)
    requires Silent(front) && k < |front + ms|
    requires (front + ms)[k].role == Tool || ((front + ms)[k].role == Assistant && (front + ms)[k].calls != [])
    ensures |front| <= k && (front + ms)[k] == ms[k - |front|]
  {
    assert forall j :: 0 <= j < |front| ==> (front + ms)[j] == front[j] && front[j] in front;
  }

  lemma CalledForInFront(front: seq<Message>, ms: seq<Message>, i: nat)
    requires Silent(front) && i < |ms|
    ensures ResultIsCalledFor(front + ms, |front| + i) <==> ResultIsCalledFor(ms, i)
  {
    var all, n := front + ms, |front|;
    assert all[n + i] == ms[i];
    if ResultIsCalledFor(all, n + i) {
      var c :| 0 <= c < n + i && all[c].role == Assistant && ms[i].toolCallId in all[c].calls;
      if n <= c {
        assert all[c] == ms[c - n];
      }
    }
    if ResultIsCalledFor(ms, i) {
      var c :| 0 <= c < i && ms[c].role == Assistant && ms[i].toolCallId in ms[c].calls;
      assert all[n + c] == ms[c];
    }
  }

  lemma AnsweredInFront(front: seq<Message>, ms: seq<Message>, c: nat, id: string)
    requires c < |ms|
    ensures CallHasResult(front + ms, |front| + c, id) <==> CallHasResult(ms, c, id)
  {
    var all, n := front + ms, |front|;
    if CallHasResult(all, n + c, id) {
      var i :| n + c < i < |all| && all[i].role == Tool && all[i].toolCallId == id;
      assert all[i] == ms[i - n];
    }
    if CallHasResult(ms, c, id) {
      var i :| c < i < |ms| && ms[i].role == Tool && ms[i].toolCallId == id;
      assert all[n + i] == ms[i];
    }
  }

  /**
   For a valid transcript in which results may come late and each id is used once, the view is valid exactly
   when nothing is compacted or the summarised messages answer all their own calls.
   */
  lemma LateCompaction(
    ms: seq<Message>, cost: Cost, summarise: Summarise, strip: string -> string,
    budget: int, targetRatio: real, tailRatio: real, minMessages: int)
    requires ValidRequest(ms) && IdsUsedOnce(ms[SystemHead(ms)..])
    ensures var body := ms[SystemHead(ms)..];
            var view := CompactedView(ms, cost, summarise, strip, budget, targetRatio, tailRatio, minMessages);
            var cut := CutPoint(body, cost, Truncate(budget as real * tailRatio));
      ValidRequest(view) <==>
      !Compacts(ms, cost, budget, targetRatio, tailRatio, minMessages) || AnswersItself(body[..cut])
  {
    hide KeptTail, CutPoint, ValidRequest, TotalCost, SummaryMessage, KeepFrom,
      SystemHead, AnswersItself, IdsUsedOnce, Silent;
    var head, body := ms[..SystemHead(ms)], ms[SystemHead(ms)..];
    var tailBudget := Truncate(budget as real * tailRatio);
    var view := CompactedView(ms, cost, summarise, strip, budget, targetRatio, tailRatio, minMessages);
    HeadIsSilent(ms);
    assert ms == head + body;
    SilentInFront(head, body);
    if Compacts(ms, cost, budget, targetRatio, tailRatio, minMessages) {
      var cut := CutPoint(body, cost, tailBudget);
      LateTailIsKept(body, cost, tailBudget);
      LateResultsCut(body, cut);
      SummaryIsSilent(summarise(body[..cut]), strip);
      SilentConcat(head, [SummaryMessage(summarise(body[..cut]), strip)]);
      SilentInFront(head + [SummaryMessage(summarise(body[..cut]), strip)], body[cut..]);
    }
  }

  lemma SilentConcat(a: seq<Message>, b: seq<Message>)
    requires Silent(a) && Silent(b)
    ensures Silent(a + b)
  {}

  lemma LateTailIsKept(body: seq<Message>, cost: Cost, budget: int)
    requires ValidRequest(body)
    ensures KeptTail(body, cost, budget) == body[CutPoint(body, cost, budget)..]
  {
    hide ValidRequest, StripOrphan, AnswersItself;
    var k := SkipResults(body, KeepFrom(body, cost, budget, |body|, 0));
    LateCallsKeepResults(body, k);
  }

  // ---------- sessions with unanswered calls ----------

  // From where on the kept messages keep their calls: behind a first one that loses them.
  function IntactFrom(body: seq<Message>, cost: Cost, budget: int): (r: nat)
    ensures CutPoint(body, cost, budget) <= r <= |body|
  {
    var k := SkipResults(body, KeepFrom(body, cost, budget, |body|, 0));
    if k < |body| && StartsOrphaned(body[k..]) then k + 1 else CutPoint(body, cost, budget)
  }

  // A call in front of n whose result stands behind.
  ghost predicate LosesCall(ms: seq<Message>, n: nat) {
    exists c: nat, i: nat ::
      c < n <= i < |ms| && ms[c].role == Assistant && ms[i].role == Tool && ms[i].toolCallId in ms[c].calls
  }

  /**
   On any session the view is valid exactly when the session is, if nothing is compacted, and otherwise exactly
   when the messages that keep their calls are valid by themselves.
   */
  lemma CompactionOfAnySession(
    ms: seq<Message>, cost: Cost, summarise: Summarise, strip: string -> string,
    budget: int, targetRatio: real, tailRatio: real, minMessages: int)
    ensures var body := ms[SystemHead(ms)..];
            var view := CompactedView(ms, cost, summarise, strip, budget, targetRatio, tailRatio, minMessages);
      ValidRequest(view) <==>
      if Compacts(ms, cost, budget, targetRatio, tailRatio, minMessages)
      then ValidRequest(body[IntactFrom(body, cost, Truncate(budget as real * tailRatio))..])
      else ValidRequest(ms)
  {
    hide KeptTail, CutPoint, IntactFrom, ValidRequest, TotalCost, SummaryMessage, KeepFrom, SystemHead, Silent;
    var head, body := ms[..SystemHead(ms)], ms[SystemHead(ms)..];
    var tailBudget := Truncate(budget as real * tailRatio);
    if Compacts(ms, cost, budget, targetRatio, tailRatio, minMessages) {
      var cut := CutPoint(body, cost, tailBudget);
      var summary := [SummaryMessage(summarise(body[..cut]), strip)];
      HeadIsSilent(ms);
      SummaryIsSilent(summarise(body[..cut]), strip);
      SilentConcat(head, summary);
      SilentInFront(head + summary, KeptTail(body, cost, tailBudget));
      KeptTailIsValid(body, cost, tailBudget);
    }
  }

  lemma KeptTailIsValid(body: seq<Message>, cost: Cost, budget: int)
    ensures ValidRequest(KeptTail(body, cost, budget)) <==> ValidRequest(body[IntactFrom(body, cost, budget)..])
  {
    hide ValidRequest, KeepFrom, StartsOrphaned;
    var k := SkipResults(body, KeepFrom(body, cost, budget, |body|, 0));
    if k < |body| && StartsOrphaned(body[k..]) {
      StrippedIsSilent(body[k..]);
      SilentInFront(StripOrphan(body[k..])[..1], body[k + 1..]);
    }
  }

  lemma StrippedIsSilent(tail: seq<Message>)
    requires StartsOrphaned(tail)
    ensures Silent(StripOrphan(tail)[..1]) && StripOrphan(tail) == StripOrphan(tail)[..1] + tail[1..]
  {}

  /**
   If ids are used once, the messages from n on are valid by themselves exactly when they answer their own calls
   and none of their results belongs to a call in front of n.
   */
  lemma SuffixIsValid(ms: seq<Message>, n: nat)
    requires ResultsAreCalled(ms) && IdsUsedOnce(ms) && n <= |ms|
    ensures ValidRequest(ms[n..]) <==> AnswersItself(ms[n..]) && !LosesCall(ms, n)
  {
    hide IdsUsedOnce, AnswersItself, CallHasResult;
    var tail := ms[n..];
    if ValidRequest(tail) && LosesCall(ms, n) {
      var c: nat, i: nat :|
        c < n <= i < |ms| && ms[c].role == Assistant && ms[i].role == Tool && ms[i].toolCallId in ms[c].calls;
      var d := CallInTail(ms, n, i);
      OneCall(ms, c, d, ms[i].toolCallId);
    }
    if AnswersItself(tail) && !LosesCall(ms, n) {
      forall i: nat | i < |tail| && tail[i].role == Tool ensures ResultIsCalledFor(tail, i) {
        assert ms[n + i] == tail[i] && ResultIsCalledFor(ms, n + i);
        var c :| 0 <= c < n + i && ms[c].role == Assistant && ms[n + i].toolCallId in ms[c].calls;
        assert n <= c && tail[c - n] == ms[c];
      }
    }
    ValidIs(tail);
  }

  // The system head calls nothing, so the body still has the call of each of its results.
  lemma BodyKeepsResultsCalled(ms: seq<Message>)
    requires ResultsAreCalled(ms)
    ensures ResultsAreCalled(ms[SystemHead(ms)..])
  {
    hide SystemHead;
    var head, body := ms[..SystemHead(ms)], ms[SystemHead(ms)..];
    HeadIsSilent(ms);
    assert ms == head + body;
    forall i: nat | i < |body| && body[i].role == Tool ensures ResultIsCalledFor(body, i) {
      assert ms[|head| + i] == body[i];
      CalledForInFront(head, body, i);
    }
  }

  // ---------- inputs on which compaction fails ----------

  // Messages of cost five: the tail takes as many as the budget pays for.
  lemma {:induction false} KeepsBudget(body: seq<Message>, cost: Cost, budget: nat, n: nat, k: nat)
    requires (forall m :: cost(m) == 5) && 1 <= n <= |body| && 5 * n <= budget < 5 * n + 5 && |body| - n <= k <= |body|
    ensures KeepFrom(body, cost, budget, k, 5 * (|body| - k)) == |body| - n
  {
    if |body| - n < k {
      KeepsBudget(body, cost, budget, n, k - 1);
    }
  }

  lemma {:induction false} EvenCosts(ms: seq<Message>, cost: Cost)
    requires forall m :: cost(m) == 5
    ensures TotalCost(ms, cost) == 5 * |ms|
  {
    if ms != [] {
      EvenCosts(ms[..|ms| - 1], cost);
    }
  }

  const HI := Text(User, "hi")

  // Seven user messages between a call and its result.
  function LateAnswer(): seq<Message> {
    [AssistantMessage("", ["a"]), HI, HI, HI, HI, HI, HI, HI, ToolMessage("a", "done")]
  }

  predicate OneLateAnswer(ms: seq<Message>) {
    |ms| == 9 && ms[0] == AssistantMessage("", ["a"]) && ms[8] == ToolMessage("a", "done")
    && forall i :: 0 < i < 8 ==> ms[i] == HI
  }

  lemma LateAnswerIsLate()
    ensures OneLateAnswer(LateAnswer())
  {}

  lemma LateAnswerIsValid(ms: seq<Message>)
    requires OneLateAnswer(ms)
    ensures ValidRequest(ms) && IdsUsedOnce(ms) && SystemHead(ms) == 0
    ensures !AnswersItself(ms[..6])
  {
    assert ms[0].calls[0] == "a" && ms[8].toolCallId == "a";
    assert ResultIsCalledFor(ms, 8) && CallHasResult(ms, 0, "a");
    var front := ms[..6];
    assert front[0].calls[0] == "a" && !CallHasResult(front, 0, "a");
  }

  // With messages of cost five and a budget of fifty, nine messages are compacted and the last three kept.
  lemma NineAreCompacted(ms: seq<Message>, cost: Cost)
    requires (forall m :: cost(m) == 5) && |ms| == 9 && SystemHead(ms) == 0 && ms[6].role != Tool
    ensures Compacts(ms, cost, 50, 0.8, 0.3, 8) && Truncate(50 as real * 0.3) == 15
    ensures ms[0..] == ms && SkipResults(ms, KeepFrom(ms, cost, 15, 9, 0)) == 6 && CutPoint(ms, cost, 15) == 6
  {
    hide KeepFrom;
    KeepsBudget(ms, cost, 15, 3, 9);
    EvenCosts(ms, cost);
    assert ms[0..] == ms && Truncate(50 as real * 0.8) == 40;
  }

  /**
   Answering every call some time later is not enough: at the loop's own ratios a valid transcript of nine
   messages is compacted to a view whose last message is a result without its call.
   */
  lemma LateResultIsOrphaned(cost: Cost, summarise: Summarise, strip: string -> string)
    requires forall m :: cost(m) == 5
    ensures ValidRequest(LateAnswer()) && IdsUsedOnce(LateAnswer())
    ensures !ValidRequest(CompactedView(LateAnswer(), cost, summarise, strip, 50, 0.8, 0.3, 8))
  {
    hide ValidRequest, IdsUsedOnce, AnswersItself, CompactedView, Compacts, KeepFrom, CutPoint, LateAnswer;
    var ms := LateAnswer();
    LateAnswerIsLate();
    LateAnswerIsValid(ms);
    NineAreCompacted(ms, cost);
    LateCompaction(ms, cost, summarise, strip, 50, 0.8, 0.3, 8);
  }

  // A turn that broke off between the results of two calls, and the next user message.
  function BrokenOff(): seq<Message> {
    [HI, HI, HI, HI, HI, HI, AssistantMessage("", ["a", "b"]), ToolMessage("a", "done"), HI]
  }

  lemma BrokenOffIsCalled()
    ensures ResultsAreCalled(BrokenOff()) && |BrokenOff()| == 9 && SystemHead(BrokenOff()) == 0
    ensures BrokenOff()[6..] == [AssistantMessage("", ["a", "b"]), ToolMessage("a", "done"), HI]
  {
    var ms := BrokenOff();
    assert ms[6].calls[0] == "a" && ResultIsCalledFor(ms, 7);
  }

  lemma BrokenOffIsOrphaned()
    ensures StartsOrphaned([AssistantMessage("", ["a", "b"]), ToolMessage("a", "done"), HI])
  {
    var tail := [AssistantMessage("", ["a", "b"]), ToolMessage("a", "done"), HI];
    assert tail[0].calls[1] == "b" && "b" in IdSet(tail[0].calls);
    assert "b" !in ResultIds(tail);
  }

  lemma NineBecomeFour(ms: seq<Message>, cost: Cost, summarise: Summarise, strip: string -> string)
    requires (forall m :: cost(m) == 5) && |ms| == 9 && SystemHead(ms) == 0 && ms[6].role != Tool
    ensures CompactedView(ms, cost, summarise, strip, 50, 0.8, 0.3, 8) ==
            [SummaryMessage(summarise(ms[..6]), strip)] + StripOrphan(ms[6..])
  {
    hide KeepFrom, CutPoint, Compacts, StripOrphan, SystemHead, SkipResults, SummaryMessage;
    NineAreCompacted(ms, cost);
    assert ms[..0] == [];
  }

  /**
   The repair can do harm: one call of the first kept message has no result, so it loses the other one too, whose
   result stays.
   */
  lemma RepairOrphansResult(cost: Cost, summarise: Summarise, strip: string -> string)
    requires forall m :: cost(m) == 5
    ensures ResultsAreCalled(BrokenOff())
    ensures !ResultsAreCalled(CompactedView(BrokenOff(), cost, summarise, strip, 50, 0.8, 0.3, 8))
  {
    hide CompactedView, ResultIds, StartsOrphaned, ResultsAreCalled, BrokenOff, SystemHead;
    var ms := BrokenOff();
    BrokenOffIsCalled();
    assert ms[6] == ms[6..][0];
    NineBecomeFour(ms, cost, summarise, strip);
    BrokenOffIsOrphaned();
    ResultWithoutCall(CompactedView(ms, cost, summarise, strip, 50, 0.8, 0.3, 8));
  }

  lemma ResultWithoutCall(view: seq<Message>)
    requires |view| > 2 && view[0].calls == [] && view[1].calls == [] && view[2].role == Tool
    ensures !ResultsAreCalled(view)
  {
    assert !ResultIsCalledFor(view, 2);
  }

  // Six calls with their results, the last of which is long.
  function LongAnswer(): seq<Message> {
    [HI, AssistantMessage("", ["a", "b", "c", "d", "e", "f"]),
     ToolMessage("a", ""), ToolMessage("b", ""), ToolMessage("c", ""),
     ToolMessage("d", ""), ToolMessage("e", ""), ToolMessage("f", "long")]
  }

  function LengthCost(): Cost {
    (m: Message) => if m.content == "long" then 500 else 5
  }

  lemma LongAnswerIsPaired()
    ensures Paired(LongAnswer())
  {
    var ms := LongAnswer();
    var calls := ms[1].calls;
    assert ms[..0] == [];
    ReadOne(ms, 0);
    ReadOne(ms, 1);
    assert Owed(ms[..2]) == Some(calls) && calls[0..] == calls;
    for k := 0 to 6
      invariant Owed(ms[..2 + k]) == Some(calls[k..])
    {
      ReadOne(ms, 2 + k);
      assert ms[2 + k] == ToolMessage(calls[k], ms[2 + k].content);
      assert calls[k..][1..] == calls[k + 1..];
    }
    assert ms[..8] == ms && calls[6..] == [];
  }

  lemma ReadOne(ms: seq<Message>, k: nat)
    requires k < |ms| && Owed(ms[..k]).Some?
    ensures Owed(ms[..k + 1]) == Read(Owed(ms[..k]).value, ms[k])
  {
    assert ms[..k + 1][..k] == ms[..k];
  }

  lemma LongAnswerCut()
    ensures var ms := LongAnswer();
      && KeepFrom(ms, LengthCost(), 150, 8, 0) == 7 && CutPoint(ms, LengthCost(), 150) == 5
      && !CutsCleanly(ms, LengthCost(), 150)
  {
    var ms := LongAnswer();
    assert KeepFrom(ms, LengthCost(), 150, 7, 500) == 7;
    assert SkipResults(ms, 7) == 8;
  }

  // The fallback of three messages cuts between a call and its results: a paired transcript, an invalid view.
  lemma FallbackOrphansResults(summarise: Summarise, strip: string -> string)
    ensures Paired(LongAnswer())
    ensures !ValidRequest(CompactedView(LongAnswer(), LengthCost(), summarise, strip, 500, 0.8, 0.3, 8))
  {
    hide ValidRequest, Paired, CompactedView, KeepFrom, CutPoint, CutsCleanly;
    var ms := LongAnswer();
    LongAnswerIsPaired();
    LongAnswerCut();
    assert ms[0..] == ms && SystemHead(ms) == 0;
    assert ms == ms[..7] + [ToolMessage("f", "long")] && ms[..7] + [ms[7]] == ms;
    assert TotalCost(ms, LengthCost()) >= 500;
    assert Truncate(500 as real * 0.8) == 400 && Truncate(500 as real * 0.3) == 150;
    CompactionKeepsValidity(ms, LengthCost(), summarise, strip, 500, 0.8, 0.3, 8);
  }
}
