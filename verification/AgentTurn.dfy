/**
 One agent turn (sera/agent/loop.py), its iteration budget (sera/agent/budget.py) and turns nested in
 it by delegation (sera/tools/delegate.py). The model, the tools, the approvals and the interrupts
 are arbitrary: every choice they make is a havoc.
 */
module AgentTurn {
  import opened Wrappers
  import opened Transcript
  import Compressor

  const GRACE_NOTICE :=
    "[iteration budget exhausted — produce your final answer now in plain text. Do not call any tools.]"
  const MAX_NOTICE := "[max iterations reached]"
  const DENIED := "User denied this tool call."
  const PROMPT_REQUIRED := "[delegate_task: prompt is required]"

  class IterationBudget {
    const total: int
    var remaining: int
    var graceUsed: bool

    constructor (total: int)
      ensures this.total == total && remaining == total && !graceUsed
    {
      this.total, remaining, graceUsed := total, total, false;
    }

    // IterationBudget.of, which refuses a total below one.
    static method Of(total: int) returns (budget: Result<IterationBudget, string>)
      ensures budget.Ok? <==> total >= 1
      ensures budget.Ok? ==> fresh(budget.value) && budget.value.total == total && budget.value.Left() == total + 1
    {
      if total < 1 {
        return Err("budget total must be >= 1");
      }
      var b := new IterationBudget(total);
      budget := Ok(b);
    }

    // The iterations this budget can still pay for, its grace iteration included.
    ghost function Left(): nat
      reads this
    {
      (if remaining > 0 then remaining else 0) + if graceUsed then 0 else 1
    }

    // Neither an iteration nor grace is left to ask for.
    ghost predicate Exhausted()
      reads this
    {
      remaining < 0 || (remaining == 0 && graceUsed)
    }

    // False stands for MaxIterations.
    method Consume() returns (ok: bool)
      modifies this`remaining
      ensures ok == (old(remaining) > 0)
      ensures remaining == old(remaining) - if ok then 1 else 0
    {
      if remaining <= 0 {
        return false;
      }
      remaining := remaining - 1;
      ok := true;
    }

    predicate CanRequestGrace()
      reads this
    {
      remaining == 0 && !graceUsed
    }

    // False stands for the error of asking twice.
    method RequestGrace() returns (ok: bool)
      modifies this
      ensures ok == !old(graceUsed) && graceUsed
      ensures remaining == if ok then 1 else old(remaining)
    {
      if graceUsed {
        return false;
      }
      graceUsed, remaining := true, 1;
      ok := true;
    }
  }

  class Session {
    var messages: seq<Message>

    constructor ()
      ensures messages == []
    {
      messages := [];
    }

    method Append(m: Message)
      modifies this
      ensures messages == old(messages) + [m]
    {
      messages := messages + [m];
    }
  }

  // Raised covers every exception that leaves the turn.
  datatype Outcome = Returned(text: string) | Raised

  datatype Reply = Reply(text: string, calls: seq<string>) | Failed

  datatype ToolStep = Deny | Plain(content: string) | Delegate(prompt: string) | Fail

  /**
   What happens in one turn, in order: a look at the interrupt, the grace notice, a request with the model's
   answer after the retry on overflow, what becomes of a call, and how the turn nested in it ended.
   */
  datatype Event =
    | Checked(fired: bool)
    | Graced
    | Replied(request: seq<Message>, reply: Reply)
    | Chosen(id: string, step: ToolStep)
    | Delegated(id: string, outcome: Outcome, content: string)

  // The model, the tools and the user as one turn meets them; the log is what they did.
  class World {
    ghost var log: seq<Event>

    constructor ()
      ensures log == []
    {
      log := [];
    }

    method Stream(request: seq<Message>) returns (reply: Reply)
      modifies this
      ensures log == old(log) + [Replied(request, reply)]
    {
      reply := *;
      log := log + [Replied(request, reply)];
    }

    method ChooseTool(id: string) returns (step: ToolStep)
      modifies this
      ensures log == old(log) + [Chosen(id, step)]
    {
      step := *;
      log := log + [Chosen(id, step)];
    }

    method Interrupted() returns (fired: bool)
      modifies this
      ensures log == old(log) + [Checked(fired)]
    {
      fired := *;
      log := log + [Checked(fired)];
    }
  }

  // What an event adds to the transcript.
  function MessageOf(e: Event): seq<Message> {
    match e
    case Checked(_) => []
    case Graced => [Text(User, GRACE_NOTICE)]
    case Replied(_, reply) => if reply.Failed? then [] else [AssistantMessage(reply.text, reply.calls)]
    case Chosen(id, Deny) => [ToolMessage(id, DENIED)]
    case Chosen(id, Plain(content)) => [ToolMessage(id, content)]
    case Chosen(id, Delegate(prompt)) => if prompt == "" then [ToolMessage(id, PROMPT_REQUIRED)] else []
    case Chosen(_, Fail) => []
    case Delegated(id, _, content) => [ToolMessage(id, content)]
  }

  function MessagesOf(log: seq<Event>): seq<Message> {
    if log == [] then [] else MessagesOf(log[..|log| - 1]) + MessageOf(log[|log| - 1])
  }

  function RequestsIn(log: seq<Event>): seq<seq<Message>> {
    if log == [] then [] else
      var last := log[|log| - 1];
      RequestsIn(log[..|log| - 1]) + if last.Replied? then [last.request] else []
  }

  // An interrupt, a failed request or a raising tool: what ends a turn with an exception.
  predicate Raises(e: Event) {
    e == Checked(true) || (e.Replied? && e.reply.Failed?) || (e.Chosen? && e.step.Fail?)
  }

  predicate Quiet(log: seq<Event>) {
    forall e :: e in log ==> !Raises(e)
  }

  predicate EndsRaised(log: seq<Event>) {
    log != [] && Quiet(log[..|log| - 1]) && Raises(log[|log| - 1])
  }

  // A call is done with: denied, or answered and followed by a look at the interrupt.
  predicate CallDone(e: Event) {
    e == Checked(false) || (e.Chosen? && e.step.Deny?)
  }

  /**
   The order of the loop: a request comes behind a look at the interrupt, with only the grace notice in between; the
   calls come behind the reply; every answer but a denial is followed by such a look.
   */
  predicate MayFollow(a: Event, b: Event) {
    match b
    case Checked(_) => CallDone(a) || a.Delegated? || (a.Chosen? && MessageOf(a) != [])
    case Graced => a == Checked(false)
    case Replied(_, _) => a == Checked(false) || a.Graced?
    case Chosen(_, _) => CallDone(a) || a.Replied?
    case Delegated(id, outcome, content) =>
      a.Chosen? && a.id == id && a.step.Delegate? && a.step.prompt != ""
          && (outcome.Returned? ==> content == outcome.text)
  }

  predicate InOrder(log: seq<Event>) {
    (log != [] ==> log[0].Checked?) && forall k :: 0 < k < |log| ==> MayFollow(log[k - 1], log[k])
  }

  // Each request holds all that the session held by then.
  predicate RequestsAreCurrent(start: seq<Message>, log: seq<Event>) {
    forall k :: 0 <= k < |log| && log[k].Replied? ==> log[k].request == start + MessagesOf(log[..k])
  }

  // The log accounts for the session and for the requests.
  ghost predicate Logged(start: seq<Message>, now: seq<Message>, requests: seq<seq<Message>>, log: seq<Event>) {
    now == start + MessagesOf(log) && requests == RequestsIn(log) && InOrder(log) && RequestsAreCurrent(start, log)
  }

  lemma LogOneMore(start: seq<Message>, now: seq<Message>, requests: seq<seq<Message>>, log: seq<Event>, e: Event)
    requires Logged(start, now, requests, log)
    requires if log == [] then e.Checked? else MayFollow(log[|log| - 1], e)
    requires e.Replied? ==> e.request == now
    ensures var more := if e.Replied? then requests + [e.request] else requests;
      && Logged(start, now + MessageOf(e), more, log + [e])
      && (MessageOf(e) == [] ==> Logged(start, now, more, log + [e]))
    ensures Quiet(log) ==> if Raises(e) then EndsRaised(log + [e]) else Quiet(log + [e])
  {
    hide MessageOf, MayFollow, Raises;
    var more := log + [e];
    assert more[..|log|] == log;
    assert (start + MessagesOf(log)) + MessageOf(e) == start + (MessagesOf(log) + MessageOf(e));
    assert now + [] == now && requests + [] == requests;
    assert forall k :: 0 <= k < |log| ==> more[..k] == log[..k];
  }

  // The last non-empty assistant text.
  function FinalText(ms: seq<Message>): string {
    if ms == [] then "" else
      var last := ms[|ms| - 1];
      if last.role == Assistant && last.content != "" then last.content else FinalText(ms[..|ms| - 1])
  }

  // The turn ended in grace with a model that asked for tools all the same.
  predicate EndsInGraceCalls(added: seq<Message>) {
    |added| >= 2
    && added[|added| - 2] == Text(User, GRACE_NOTICE)
    && added[|added| - 1].role == Assistant && added[|added| - 1].calls != []
    && Paired(added[..|added| - 1])
  }

  lemma FinalTextAfter(ms: seq<Message>, m: Message)
    ensures FinalText(ms + [m]) == if m.role == Assistant && m.content != "" then m.content else FinalText(ms)
  {
    assert (ms + [m])[..|ms|] == ms;
  }

  // Each request is the session as it was at some point of the turn, with every call answered.
  ghost predicate RequestsOf(requests: seq<seq<Message>>, before: seq<Message>, now: seq<Message>) {
    forall r :: r in requests ==> before <= r <= now && Paired(r[|before|..])
  }

  lemma RequestsStay(requests: seq<seq<Message>>, before: seq<Message>, now: seq<Message>, later: seq<Message>)
    requires RequestsOf(requests, before, now) && now <= later
    ensures RequestsOf(requests, before, later)
  {
    hide Paired;
  }

  lemma RequestsExtend(requests: seq<seq<Message>>, before: seq<Message>, added: seq<Message>)
    requires RequestsOf(requests, before, before + added) && Paired(added)
    ensures RequestsOf(requests + [before + added], before, before + added)
  {
    hide Paired;
    assert (before + added)[|before|..] == added;
  }

  // A look at the interrupt, whatever it shows.
  lemma LogLook(start: seq<Message>, now: seq<Message>, requests: seq<seq<Message>>, log: seq<Event>)
    requires Logged(start, now, requests, log) && Quiet(log)
    requires log != [] && MayFollow(log[|log| - 1], Checked(true))
    ensures Logged(start, now, requests, log + [Checked(false)]) && Quiet(log + [Checked(false)])
    ensures Logged(start, now, requests, log + [Checked(true)]) && EndsRaised(log + [Checked(true)])
    ensures CallDone(Checked(false))
  {
    hide Logged, Quiet, EndsRaised;
    LogOneMore(start, now, requests, log, Checked(false));
    LogOneMore(start, now, requests, log, Checked(true));
  }

  predicate AnswersTo(results: seq<Message>, calls: seq<string>) {
    |results| <= |calls|
    && forall j :: 0 <= j < |results| ==> results[j].role == Tool && results[j].toolCallId == calls[j]
  }

  lemma AnswersOneMore(results: seq<Message>, calls: seq<string>, result: Message)
    requires AnswersTo(results, calls) && |results| < |calls|
    requires result.role == Tool && result.toolCallId == calls[|results|]
    ensures AnswersTo(results + [result], calls)
  {}

  // The log of the turn where the next of the calls may come.
  ghost predicate Calling(
    start: seq<Message>, now: seq<Message>, requests: seq<seq<Message>>, log: seq<Event>, first: bool)
  {
    Logged(start, now, requests, log) && Quiet(log) && log != []
    && (CallDone(log[|log| - 1]) || (first && log[|log| - 1].Replied?))
  }

  // An answered call is followed by a look at the interrupt, a denied one is done with.
  lemma CallingGoesOn(
    start: seq<Message>, now: seq<Message>, requests: seq<seq<Message>>, log: seq<Event>, denied: bool)
    requires Logged(start, now, requests, log) && Quiet(log) && log != []
    requires if denied then CallDone(log[|log| - 1]) else MayFollow(log[|log| - 1], Checked(true))
    ensures denied ==> Calling(start, now, requests, log, false)
    ensures !denied ==> Calling(start, now, requests, log + [Checked(false)], false)
    ensures !denied ==> Logged(start, now, requests, log + [Checked(true)]) && EndsRaised(log + [Checked(true)])
  {
    hide Logged, Quiet, EndsRaised, MayFollow;
    if !denied {
      LogLook(start, now, requests, log);
    }
  }

  lemma CallingStarts(
    start: seq<Message>, now: seq<Message>, requests: seq<seq<Message>>, log: seq<Event>, calls: seq<string>)
    requires Logged(start, now, requests, log) && Quiet(log) && log != [] && log[|log| - 1].Replied?
    ensures Calling(start, now, requests, log, true) && AnswersTo([], calls)
  {}

  lemma CallingIs(start: seq<Message>, now: seq<Message>, requests: seq<seq<Message>>, log: seq<Event>, first: bool)
    requires Calling(start, now, requests, log, first)
    ensures Logged(start, now, requests, log) && Quiet(log) && log != []
    ensures var last := log[|log| - 1]; CallDone(last) || (first && last.Replied?)
  {}

  // The results of an assistant message's calls, appended one by one.
  method AnswerCalls(session: Session, calls: seq<string>, budget: IterationBudget, world: World,
                     ghost start: seq<Message>, ghost requests: seq<seq<Message>>)
    returns (raised: bool, spent: nat, ghost results: seq<Message>)
    requires Logged(start, session.messages, requests, world.log) && Quiet(world.log)
    requires world.log != [] && world.log[|world.log| - 1].Replied?
    modifies session, budget, world
    ensures Logged(start, session.messages, requests, world.log)
    ensures if raised then EndsRaised(world.log) else Quiet(world.log)
    ensures world.log != [] && (!raised && calls != [] ==> CallDone(world.log[|world.log| - 1]))
    ensures budget.Left() + spent == old(budget.Left())
    ensures session.messages == old(session.messages) + results
    ensures AnswersTo(results, calls) && (!raised ==> |results| == |calls|)
    decreases budget.Left(), 4
  {
    hide Logged, Quiet, EndsRaised, CallDone, MayFollow, Calling, AnswersTo, MessageOf;
    raised, spent, results := false, 0, [];
    CallingStarts(start, session.messages, requests, world.log, calls);
    var i := 0;
    while i < |calls|
      invariant 0 <= i <= |calls| && |results| == i && AnswersTo(results, calls)
      invariant session.messages == old(session.messages) + results
      invariant budget.Left() + spent == old(budget.Left())
      invariant Calling(start, session.messages, requests, world.log, i == 0)
    {
      CallingIs(start, session.messages, requests, world.log, i == 0);
      var result, denied, used, failed := ExecuteTool(calls[i], budget, world, start, session.messages, requests);
      spent := spent + used;
      if failed {
        return true, spent, results;
      }
      session.Append(result);
      AnswersOneMore(results, calls, result);
      results := results + [result];
      i := i + 1;
      CallingGoesOn(start, session.messages, requests, world.log, denied);
      // A denied call goes on with the next one; any other is followed by a check for an interrupt.
      if !denied {
        var cancelled := world.Interrupted();
        if cancelled {
          return true, spent, results;
        }
      }
    }
    CallingIs(start, session.messages, requests, world.log, i == 0);
  }

  lemma {:induction false} ResultsAreOwed(added: seq<Message>, calls: seq<string>, results: seq<Message>)
    requires Owed(added) == Some(calls) && |results| <= |calls|
    requires forall j :: 0 <= j < |results| ==> results[j].role == Tool && results[j].toolCallId == calls[j]
    ensures Owed(added + results) == Some(calls[|results|..])
    ensures FinalText(added + results) == FinalText(added)
  {
    if results == [] {
      assert added + results == added;
    } else {
      var last := |results| - 1;
      ResultsAreOwed(added, calls, results[..last]);
      OwedAfter(added + results[..last], results[last]);
      FinalTextAfter(added + results[..last], results[last]);
      assert (added + results[..last]) + [results[last]] == added + results;
      assert calls[last..][1..] == calls[|results|..];
    }
  }

  // Pay for one iteration, from grace if the budget just ran out; go is false if nothing pays.
  method PayIteration(session: Session, budget: IterationBudget) returns (go: bool, grace: bool)
    modifies session, budget
    ensures budget.Left() == old(budget.Left()) - if go then 1 else 0
    ensures go <==> old(budget.remaining) > 0 || grace
    ensures grace <==> old(budget.remaining) == 0 && !old(budget.graceUsed)
    ensures !go ==> budget.Exhausted()
    ensures grace ==> session.messages == old(session.messages) + [Text(User, GRACE_NOTICE)]
    ensures !grace ==> session.messages == old(session.messages)
  {
    grace := false;
    go := budget.Consume();
    if !go && budget.CanRequestGrace() {
      var _ := budget.RequestGrace();
      go := budget.Consume();
      grace := true;
      session.Append(Text(User, GRACE_NOTICE));
    }
  }

  // How one pass of the loop ends: go on, leave the loop, or an exception.
  datatype Pass = Continue | Break | Throw

  // What holds between two passes: the session has grown by added, in which every call is answered.
  ghost predicate Between(before: seq<Message>, added: seq<Message>, now: seq<Message>,
                          finalText: string, requests: seq<seq<Message>>) {
    now == before + added && Paired(added) && finalText == FinalText(added) && RequestsOf(requests, before, now)
  }

  // The last message is a reply that asks for nothing more, or that grace cut short.
  predicate Answered(added: seq<Message>) {
    added != [] && added[|added| - 1].role == Assistant && (added[|added| - 1].calls == [] || EndsInGraceCalls(added))
  }

  // What holds when the loop is left with the given text.
  ghost predicate Ended(before: seq<Message>, now: seq<Message>, finalText: string, exhausted: bool) {
    before <= now
    && var added := now[|before|..];
       (Paired(added) || EndsInGraceCalls(added))
       && (Answered(added) || exhausted)
       && (finalText == FinalText(added) || (FinalText(added) == "" && finalText == MAX_NOTICE && exhausted))
  }

  ghost predicate Recorded(before: seq<Message>, now: seq<Message>, requests: seq<seq<Message>>) {
    before <= now && Owed(now[|before|..]).Some? && RequestsOf(requests, before, now)
  }

  lemma BetweenIsEnded(before: seq<Message>, added: seq<Message>, now: seq<Message>,
                       finalText: string, requests: seq<seq<Message>>)
    requires Between(before, added, now, finalText, requests)
    ensures Recorded(before, now, requests)
    ensures Ended(before, now, if finalText == "" then MAX_NOTICE else finalText, true)
  {
    hide Owed, FinalText, RequestsOf;
    assert now[|before|..] == added;
  }

  lemma NoticeKeepsBetween(before: seq<Message>, added: seq<Message>, now: seq<Message>,
                           finalText: string, requests: seq<seq<Message>>, notice: Message)
    requires Between(before, added, now, finalText, requests) && notice == Text(User, GRACE_NOTICE)
    ensures Between(before, added + [notice], now + [notice], finalText, requests)
  {
    hide Owed, FinalText, RequestsOf;
    OwedAfter(added, notice);
    FinalTextAfter(added, notice);
    RequestsStay(requests, before, now, now + [notice]);
    assert before + (added + [notice]) == (before + added) + [notice];
  }

  lemma RequestKeepsBetween(before: seq<Message>, added: seq<Message>, now: seq<Message>,
                            finalText: string, requests: seq<seq<Message>>)
    requires Between(before, added, now, finalText, requests)
    ensures Between(before, added, now, finalText, requests + [now])
  {
    hide Owed, FinalText, RequestsOf, Paired;
    RequestsExtend(requests, before, added);
  }

  lemma ReplyEnds(before: seq<Message>, added: seq<Message>, now: seq<Message>,
                  finalText: string, requests: seq<seq<Message>>, m: Message, grace: bool)
    requires Between(before, added, now, finalText, requests) && m.role == Assistant
    requires grace ==> added != [] && added[|added| - 1] == Text(User, GRACE_NOTICE)
    requires m.calls == [] || grace
    ensures var text := if m.content != "" then m.content else finalText;
      Ended(before, now + [m], text, false) && Recorded(before, now + [m], requests)
  {
    hide Owed, FinalText, RequestsOf;
    OwedAfter(added, m);
    FinalTextAfter(added, m);
    RequestsStay(requests, before, now, now + [m]);
    var more := added + [m];
    assert (now + [m])[|before|..] == more;
    assert more[..|added|] == added;
  }

  lemma ResultsKeepBetween(before: seq<Message>, added: seq<Message>, now: seq<Message>,
                           finalText: string, requests: seq<seq<Message>>, m: Message, results: seq<Message>)
    requires Between(before, added, now, finalText, requests) && m.role == Assistant && |results| <= |m.calls|
    requires forall j :: 0 <= j < |results| ==> results[j].role == Tool && results[j].toolCallId == m.calls[j]
    ensures var text := if m.content != "" then m.content else finalText;
            var later := now + [m] + results;
      && Recorded(before, later, requests)
      && (|results| == |m.calls| ==> Between(before, added + [m] + results, later, text, requests))
  {
    hide Owed, FinalText, RequestsOf;
    OwedAfter(added, m);
    FinalTextAfter(added, m);
    ResultsAreOwed(added + [m], m.calls, results);
    var later := now + [m] + results;
    assert now <= later;
    RequestsStay(requests, before, now, later);
    assert later == before + (added + [m] + results);
    assert later[|before|..] == added + [m] + results;
    assert |results| == |m.calls| ==> m.calls[|results|..] == [];
  }

  // How the log of a turn stands behind a pass.
  ghost predicate Tracked(
    start: seq<Message>, now: seq<Message>, requests: seq<seq<Message>>, log: seq<Event>, pass: Pass)
  {
    Logged(start, now, requests, log)
    && (if pass.Throw? then EndsRaised(log) else Quiet(log))
    && (pass.Continue? ==> log == [] || CallDone(log[|log| - 1]))
  }

  // The head of a pass: the look at the interrupt and the payment, with the notice if grace pays.
  method StartPass(session: Session, budget: IterationBudget, world: World, ghost finalText: string,
                   ghost requests: seq<seq<Message>>,
                   ghost before: seq<Message>, ghost added: seq<Message>, ghost start: seq<Message>)
    returns (fired: bool, go: bool, grace: bool, ghost added': seq<Message>)
    requires Between(before, added, session.messages, finalText, requests)
    requires Tracked(start, session.messages, requests, world.log, Continue)
    modifies session, budget, world
    ensures old(session.messages) <= session.messages
    ensures Between(before, added', session.messages, finalText, requests)
    ensures budget.Left() == old(budget.Left()) - if go then 1 else 0
    ensures Tracked(start, session.messages, requests, world.log, if fired then Throw else Break)
    ensures fired ==> !go
    ensures !fired && !go ==> budget.Exhausted()
    ensures go ==>
      world.log != [] && (world.log[|world.log| - 1] == Checked(false) || world.log[|world.log| - 1].Graced?)
    ensures grace ==> added' != [] && added'[|added'| - 1] == Text(User, GRACE_NOTICE)
  {
    hide Between, Logged, Quiet, EndsRaised;
    added', go, grace := added, false, false;
    LogCheck(start, session.messages, requests, world.log);
    fired := world.Interrupted();
    if !fired {
      go, grace := PayIteration(session, budget);
      if grace {
        NoticeKeepsBetween(before, added, old(session.messages), finalText, requests, Text(User, GRACE_NOTICE));
        added' := added + [Text(User, GRACE_NOTICE)];
        LogOneMore(start, old(session.messages), requests, world.log, Graced);
        world.log := world.log + [Graced];
      }
    }
  }

  // One pass of the loop.
  method Iterate(
    session: Session, budget: IterationBudget, finalText: string, requests: seq<seq<Message>>, world: World,
    ghost before: seq<Message>, ghost added: seq<Message>, ghost start: seq<Message>)
    returns (pass: Pass, text: string, spent: nat, requests': seq<seq<Message>>, ghost added': seq<Message>)
    requires Between(before, added, session.messages, finalText, requests)
    requires Tracked(start, session.messages, requests, world.log, Continue)
    modifies session, budget, world
    ensures budget.Left() + spent == old(budget.Left())
    ensures |requests'| <= |requests| + spent
    ensures old(session.messages) <= session.messages
    ensures pass.Continue? ==> spent > 0 && Between(before, added', session.messages, text, requests')
    ensures pass.Break? ==> Ended(before, session.messages, text, budget.Exhausted())
    ensures Recorded(before, session.messages, requests')
    ensures Tracked(start, session.messages, requests', world.log, pass)
    decreases budget.Left(), 0
  {
    hide Between, Ended, Recorded, Logged, Quiet, EndsRaised;
    text, spent, requests', added' := finalText, 0, requests, added;
    var fired, go, grace;
    fired, go, grace, added' := StartPass(session, budget, world, text, requests, before, added, start);
    BetweenIsEnded(before, added', session.messages, finalText, requests);
    if fired {
      return Throw, text, spent, requests', added';
    }
    if !go {
      if text == "" {
        text := MAX_NOTICE;
      }
      return Break, text, spent, requests', added';
    }
    spent := 1;
    ghost var now, log := session.messages, world.log;
    RequestKeepsBetween(before, added', now, text, requests);
    requests' := requests + [session.messages];
    var reply := world.Stream(session.messages);
    LogOneMore(start, now, requests, log, Replied(now, reply));
    if reply.Failed? {
      BetweenIsEnded(before, added', now, text, requests');
      return Throw, text, spent, requests', added';
    }
    var m := AssistantMessage(reply.text, reply.calls);
    session.Append(m);
    if reply.calls == [] || grace {
      ReplyEnds(before, added', now, text, requests', m, grace);
      EndedAnyway(before, session.messages, if reply.text != "" then reply.text else text, budget.Exhausted());
      return Break, if reply.text != "" then reply.text else text, spent, requests', added';
    }
    var raised, used;
    ghost var results;
    raised, used, results := AnswerCalls(session, reply.calls, budget, world, start, requests');
    ResultsKeepBetween(before, added', now, text, requests', m, results);
    spent := spent + used;
    added' := added' + [m] + results;
    text := if reply.text != "" then reply.text else text;
    pass := if raised then Throw else Continue;
  }

  lemma LogCheck(start: seq<Message>, now: seq<Message>, requests: seq<seq<Message>>, log: seq<Event>)
    requires Tracked(start, now, requests, log, Continue)
    ensures Tracked(start, now, requests, log + [Checked(false)], Continue)
    ensures Tracked(start, now, requests, log + [Checked(true)], Throw)
  {
    hide Logged, Quiet, EndsRaised;
    LogOneMore(start, now, requests, log, Checked(false));
    LogOneMore(start, now, requests, log, Checked(true));
  }

  lemma EndedAnyway(before: seq<Message>, now: seq<Message>, finalText: string, exhausted: bool)
    requires Ended(before, now, finalText, false)
    ensures Ended(before, now, finalText, exhausted)
  {
    hide Paired, FinalText, EndsInGraceCalls, Answered;
  }

  /**
   RunTurn returns, besides its outcome, the iterations it spent (with those of the turns nested in it)
   and the transcripts its own requests to the model were built from.
   */
  method RunTurn(session: Session, userMsg: string, budget: IterationBudget, cached: Option<string>, world: World)
    returns (outcome: Outcome, spent: nat, requests: seq<seq<Message>>)
    requires world.log == []
    modifies session, budget, world
    ensures Logged(old(session.messages) + [Text(User, userMsg)], session.messages, requests, world.log)
    ensures outcome.Returned? ==> Quiet(world.log)
    ensures outcome.Raised? ==> EndsRaised(world.log)
    ensures cached.Some? ==> outcome == Returned(cached.value) && world.log == []
    ensures budget.Left() + spent == old(budget.Left())
    ensures |requests| <= spent
    ensures old(session.messages) + [Text(User, userMsg)] <= session.messages
    ensures RequestsOf(requests, old(session.messages), session.messages)
    ensures var added := session.messages[|old(session.messages)|..];
      && Owed(added).Some?
      && (outcome.Returned? ==> Paired(added) || EndsInGraceCalls(added))
      && (outcome.Returned? ==> Answered(added) || budget.Exhausted() || (Some(outcome.text) == cached && spent == 0))
      && (outcome.Returned? ==>
            || outcome.text == FinalText(added)
            || (FinalText(added) == "" && outcome.text == MAX_NOTICE && budget.Exhausted())
            || (Some(outcome.text) == cached && spent == 0))
    decreases budget.Left(), 1
  {
    hide Owed, FinalText, RequestsOf, Paired, EndsInGraceCalls, Answered, Logged, Quiet, EndsRaised;
    ghost var before := session.messages;
    ghost var added := [Text(User, userMsg)];
    ghost var start := before + added;
    spent, requests := 0, [];
    session.Append(Text(User, userMsg));
    TurnStarts(userMsg, before);
    BetweenIsEnded(before, added, session.messages, "", requests);
    NothingLogged(start);
    if cached.Some? {
      assert session.messages[|before|..] == added;
      return Returned(cached.value), spent, requests;
    }
    var finalText := "";
    var pass := Continue;
    while pass.Continue?
      invariant budget.Left() + spent == old(budget.Left()) && |requests| <= spent
      invariant pass.Continue? ==> Between(before, added, session.messages, finalText, requests)
      invariant pass.Break? ==> Ended(before, session.messages, finalText, budget.Exhausted())
      invariant Recorded(before, session.messages, requests)
      invariant before + [Text(User, userMsg)] <= session.messages
      invariant Tracked(start, session.messages, requests, world.log, pass)
      decreases pass.Continue?, budget.Left()
    {
      var used;
      pass, finalText, used, requests, added :=
        Iterate(session, budget, finalText, requests, world, before, added, start);
      spent := spent + used;
    }
    outcome := if pass.Throw? then Raised else Returned(finalText);
  }

  lemma NothingLogged(start: seq<Message>)
    ensures Logged(start, start, [], []) && Quiet([])
  {}

  lemma TurnStarts(userMsg: string, before: seq<Message>)
    ensures Owed([Text(User, userMsg)]) == Some([]) && Paired([Text(User, userMsg)])
    ensures FinalText([Text(User, userMsg)]) == ""
    ensures RequestsOf([], before, before + [Text(User, userMsg)])
  {
    OwedAfter([], Text(User, userMsg));
    FinalTextAfter([], Text(User, userMsg));
    assert [] + [Text(User, userMsg)] == [Text(User, userMsg)];
  }

  // One tool call. The dispatcher turns a failing tool, a failing nested turn included, into a result.
  method ExecuteTool(id: string, budget: IterationBudget, world: World,
                     ghost start: seq<Message>, ghost now: seq<Message>, ghost requests: seq<seq<Message>>)
    returns (result: Message, denied: bool, spent: nat, raised: bool)
    requires Logged(start, now, requests, world.log) && Quiet(world.log) && world.log != []
    requires var last := world.log[|world.log| - 1]; CallDone(last) || last.Replied?
    modifies budget, world
    ensures budget.Left() + spent == old(budget.Left())
    ensures result.role == Tool && result.toolCallId == id
    ensures Logged(start, if raised then now else now + [result], requests, world.log)
    ensures world.log != [] && if raised then EndsRaised(world.log) else Quiet(world.log)
    ensures !raised ==> if denied then CallDone(world.log[|world.log| - 1])
            else MayFollow(world.log[|world.log| - 1], Checked(true))
    decreases budget.Left(), 3
  {
    hide Logged, Quiet, EndsRaised;
    result, denied, spent, raised := ToolMessage(id, DENIED), false, 0, false;
    ghost var log := world.log;
    var step := world.ChooseTool(id);
    LogOneMore(start, now, requests, log, Chosen(id, step));
    match step {
      case Deny => denied := true;
      case Fail => raised := true;
      case Plain(content) => result := ToolMessage(id, content);
      case Delegate(prompt) =>
        if prompt == "" {
          result := ToolMessage(id, PROMPT_REQUIRED);
        } else {
          var outcome;
          outcome, spent := DelegateTask(prompt, budget);
          var content: string := *;
          if outcome.Returned? {
            content := outcome.text;
          }
          LogOneMore(start, now, requests, world.log, Delegated(id, outcome, content));
          world.log := world.log + [Delegated(id, outcome, content)];
          result := ToolMessage(id, content);
        }
    }
  }

  // A subagent: a turn of its own on a fresh session, paid for by the caller's budget.
  method DelegateTask(prompt: string, budget: IterationBudget) returns (outcome: Outcome, spent: nat)
    modifies budget
    ensures budget.Left() + spent == old(budget.Left())
    decreases budget.Left(), 2
  {
    var session := new Session();
    var world := new World();
    ghost var requests;
    outcome, spent, requests := RunTurn(session, prompt, budget, None, world);
  }

  /**
   A whole turn on a fresh budget, with whatever it delegates: at most total + 1 iterations, and a budget
   that can never pay for more.
   */
  method RunUserTurn(session: Session, userMsg: string, total: int, world: World)
    returns (outcome: Result<Outcome, string>, spent: nat)
    requires world.log == []
    modifies session, world
    ensures outcome.Ok? <==> total >= 1
    ensures spent <= if total >= 1 then total + 1 else 0
    ensures outcome.Err? ==> session.messages == old(session.messages) && world.log == []
    ensures outcome.Ok? ==> if outcome.value.Raised? then EndsRaised(world.log) else Quiet(world.log)
  {
    var budget := IterationBudget.Of(total);
    if budget.Err? {
      return Err(budget.error), 0;
    }
    var result, used, _ := RunTurn(session, userMsg, budget.value, None, world);
    return Ok(result), used;
  }

  // ---------- what is sent ----------

  // No turn leaves a result without its call, however it ends.
  lemma TurnsKeepResultsCalled(before: seq<Message>, added: seq<Message>)
    requires Compressor.ResultsAreCalled(before) && Owed(added).Some?
    ensures Compressor.ResultsAreCalled(before + added)
  {
    var all := before + added;
    forall i: nat | i < |all| && all[i].role == Tool ensures Compressor.ResultIsCalledFor(all, i) {
      if i < |before| {
        assert all[i] == before[i] && Compressor.ResultIsCalledFor(before, i);
        var c :| 0 <= c < i && before[c].role == Assistant && before[i].toolCallId in before[c].calls;
        assert all[c] == before[c];
      } else {
        var k := i - |before|;
        assert all[i] == added[k];
        ResultHasCall(added, k);
        var c: nat :| ResultOf(added, k, c);
        assert all[|before| + c] == added[c];
      }
    }
  }

  // The call of id at c has no result in the session, and the turn brings none for that id.
  ghost predicate LeavesAlone(before: seq<Message>, added: seq<Message>) {
    forall c: nat, id ::
      (c < |before| && before[c].role == Assistant && id in before[c].calls && !Compressor.CallHasResult(before, c, id))
      ==> forall i :: 0 <= i < |added| && added[i].role == Tool ==> added[i].toolCallId != id
  }

  /**
   A turn that an interrupt or a grace reply ended can leave calls without results in the session, and the next
   turns go on from there: their requests are valid exactly if it left none.
   */
  lemma RequestNeedsAnswers(before: seq<Message>, added: seq<Message>)
    requires Compressor.ResultsAreCalled(before) && Paired(added) && LeavesAlone(before, added)
    ensures Compressor.ValidRequest(before + added) <==> Compressor.AnswersItself(before)
  {
    hide *;
    PairedOwesNothing(added);
    TurnsKeepResultsCalled(before, added);
    Compressor.PairedIsValid(added);
    Compressor.ValidIs(added);
    Compressor.ValidIs(before + added);
    if Compressor.AnswersItself(before) {
      AnswersOfBoth(before, added);
    }
    if Compressor.AnswersItself(before + added) {
      AnswersOfFirst(before, added);
    }
  }

  lemma AnswersOfBoth(a: seq<Message>, b: seq<Message>)
    requires Compressor.AnswersItself(a) && Compressor.AnswersItself(b)
    ensures Compressor.AnswersItself(a + b)
  {
    hide Compressor.CallHasResult;
    var all, n := a + b, |a|;
    forall c: nat, id | c < |all| && all[c].role == Assistant && id in all[c].calls
      ensures Compressor.CallHasResult(all, c, id)
    {
      if c < n {
        assert all[c] == a[c];
        AnsweredBefore(a, b, c, id);
      } else {
        assert all[c] == b[c - n];
        Compressor.AnsweredInFront(a, b, c - n, id);
      }
    }
  }

  lemma AnsweredBefore(a: seq<Message>, b: seq<Message>, c: nat, id: string)
    requires Compressor.CallHasResult(a, c, id)
    ensures Compressor.CallHasResult(a + b, c, id)
  {
    var i :| c < i < |a| && a[i].role == Tool && a[i].toolCallId == id;
    assert (a + b)[i] == a[i];
  }

  lemma AnswersOfFirst(a: seq<Message>, b: seq<Message>)
    requires Compressor.AnswersItself(a + b) && LeavesAlone(a, b)
    ensures Compressor.AnswersItself(a)
  {
    hide Compressor.CallHasResult;
    forall c: nat, id | c < |a| && a[c].role == Assistant && id in a[c].calls
      ensures Compressor.CallHasResult(a, c, id)
    {
      assert (a + b)[c] == a[c];
      AnsweredInEither(a, b, c, id);
    }
  }

  lemma AnsweredInEither(a: seq<Message>, b: seq<Message>, c: nat, id: string)
    requires c < |a| && Compressor.CallHasResult(a + b, c, id)
    ensures Compressor.CallHasResult(a, c, id) || exists i :: 0 <= i < |b| && b[i].role == Tool && b[i].toolCallId == id
  {
    var i :| c < i < |a + b| && (a + b)[i].role == Tool && (a + b)[i].toolCallId == id;
    if i < |a| {
      assert a[i] == (a + b)[i];
    } else {
      assert b[i - |a|] == (a + b)[i];
    }
  }

  lemma PairedOwesNothing(ms: seq<Message>)
    requires Paired(ms)
    ensures Owed(ms).Some?
  {}

  /**
   What the requests of a turn come to. Uncompacted, a request is valid exactly if every call of the session has a
   result; compacted, exactly if the kept messages that keep their calls answer them all and none of their
   results belongs to a call in front of them. If the session answers all its calls, that is so exactly when the
   summarised messages do; on a paired session, exactly when compaction cuts cleanly.
   */
  lemma RequestsAreValid(
    before: seq<Message>, request: seq<Message>,
    cost: Compressor.Cost, summarise: Compressor.Summarise, strip: string -> string,
    budget: int, targetRatio: real, tailRatio: real, minMessages: int)
    requires before <= request && Paired(request[|before|..])
    requires Compressor.ResultsAreCalled(before) && LeavesAlone(before, request[|before|..])
    ensures var view := Compressor.CompactedView(
              request, cost, summarise, strip, budget, targetRatio, tailRatio, minMessages);
            var body := request[Compressor.SystemHead(request)..];
            var tailBudget := Compressor.Truncate(budget as real * tailRatio);
            var from := Compressor.IntactFrom(body, cost, tailBudget);
      if !Compressor.Compacts(request, cost, budget, targetRatio, tailRatio, minMessages)
      then Compressor.ValidRequest(view) <==> Compressor.AnswersItself(before)
      else
        && (Compressor.IdsUsedOnce(body) ==>
              (Compressor.ValidRequest(view) <==>
               Compressor.AnswersItself(body[from..]) && !Compressor.LosesCall(body, from)))
        && (Compressor.AnswersItself(before) && Compressor.IdsUsedOnce(body) ==>
              (Compressor.ValidRequest(view) <==>
               Compressor.AnswersItself(body[..Compressor.CutPoint(body, cost, tailBudget)])))
        && (Paired(before) ==> (Compressor.ValidRequest(view) <==> Compressor.CutsCleanly(body, cost, tailBudget)))
  {
    hide *;
    var added := request[|before|..];
    var body := request[Compressor.SystemHead(request)..];
    assert request == before + added;
    RequestNeedsAnswers(before, added);
    Compressor.CompactionOfAnySession(request, cost, summarise, strip, budget, targetRatio, tailRatio, minMessages);
    if Compressor.IdsUsedOnce(body) {
      PairedOwesNothing(added);
      TurnsKeepResultsCalled(before, added);
      Compressor.BodyKeepsResultsCalled(request);
      Compressor.SuffixIsValid(body,
          Compressor.IntactFrom(body, cost, Compressor.Truncate(budget as real * tailRatio)));
    }
    if Compressor.AnswersItself(before) && Compressor.IdsUsedOnce(body) {
      Compressor.LateCompaction(request, cost, summarise, strip, budget, targetRatio, tailRatio, minMessages);
    }
    if Paired(before) {
      PairedConcat(before, added);
      Compressor.CompactionKeepsValidity(request, cost, summarise, strip, budget, targetRatio, tailRatio, minMessages);
    }
  }

  lemma PairedConcat(a: seq<Message>, b: seq<Message>)
    requires Paired(a) && Paired(b)
    ensures Paired(a + b)
  {
    OwedOfConcat(a, b);
  }

  // An unanswered call at the end of a session: the request of the next turn repeats it, still unanswered.
  lemma GraceCallsSpoilTheNextRequest(text: string, userMsg: string)
    ensures var before := [Text(User, userMsg), Text(User, GRACE_NOTICE), AssistantMessage(text, ["a"])];
            EndsInGraceCalls(before) && !Compressor.ValidRequest(before + [Text(User, userMsg)])
  {
    var before := [Text(User, userMsg), Text(User, GRACE_NOTICE), AssistantMessage(text, ["a"])];
    var request := before + [Text(User, userMsg)];
    TurnStarts(userMsg, []);
    OwedAfter([Text(User, userMsg)], Text(User, GRACE_NOTICE));
    assert before[..2] == [Text(User, userMsg)] + [Text(User, GRACE_NOTICE)];
    assert request[2].calls[0] == "a" && !Compressor.CallHasResult(request, 2, "a");
  }
}
