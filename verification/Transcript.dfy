/** Chat transcripts: the messages of sera/agent/loop.py and the pairing of tool calls with results. */
module Transcript {
  import opened Wrappers

  datatype Role = System | User | Assistant | Tool

  // calls holds the ids of an assistant message's tool calls; content "" stands for none.
  datatype Message = Message(role: Role, content: string, calls: seq<string>, toolCallId: string)

  function Text(role: Role, content: string): Message {
    Message(role, content, [], "")
  }

  function AssistantMessage(content: string, calls: seq<string>): Message {
    Message(Assistant, content, calls, "")
  }

  function ToolMessage(id: string, content: string): Message {
    Message(Tool, content, [], id)
  }

  // The results still owed after reading m, or None if m breaks the pairing.
  function Read(owed: seq<string>, m: Message): Option<seq<string>> {
    if owed != [] then
      if m.role == Tool && m.toolCallId == owed[0] then Some(owed[1..]) else None
    else if m.role == Tool then None
    else if m.role == Assistant then Some(m.calls)
    else Some([])
  }

  // The results owed at the end of a transcript: the calls of its last assistant message that
  // have no result yet, in order. None if some result came out of turn.
  function Owed(ms: seq<Message>): Option<seq<string>> {
    if ms == [] then Some([]) else
      var before := Owed(ms[..|ms| - 1]);
      if before.None? then None else Read(before.value, ms[|ms| - 1])
  }

  predicate Paired(ms: seq<Message>) {
    Owed(ms) == Some([])
  }

  // The j-th message after the assistant message at i is the result of its j-th call, counting from 0.
  predicate IsAnswer(ms: seq<Message>, i: nat, j: nat) {
    i + 1 + j < |ms| && j < |ms[i].calls|
    && ms[i + 1 + j].role == Tool && ms[i + 1 + j].toolCallId == ms[i].calls[j]
  }

  // The results of the assistant message at i follow it directly, in the order of its calls.
  predicate AnsweredAt(ms: seq<Message>, i: nat) {
    i < |ms| && i + |ms[i].calls| < |ms|
    && forall j: nat :: j < |ms[i].calls| ==> IsAnswer(ms, i, j)
  }

  // The tool message at i is one of the results that directly follow the assistant message at c.
  predicate ResultOf(ms: seq<Message>, i: nat, c: nat) {
    c < i < |ms| && ms[c].role == Assistant && i - c <= |ms[c].calls|
    && ms[i].toolCallId == ms[c].calls[i - c - 1]
    && forall j :: c < j <= i ==> ms[j].role == Tool
  }

  lemma OwedAfter(ms: seq<Message>, m: Message)
    ensures Owed(ms + [m]) == if Owed(ms).None? then None else Read(Owed(ms).value, m)
  {
    assert (ms + [m])[..|ms|] == ms;
  }

  lemma {:induction false} OwedOfConcat(a: seq<Message>, b: seq<Message>)
    requires Paired(a)
    ensures Owed(a + b) == Owed(b)
  {
    if b == [] {
      assert a + b == a;
    } else {
      var last := |b| - 1;
      OwedOfConcat(a, b[..last]);
      OwedAfter(a + b[..last], b[last]);
      assert a + b == (a + b[..last]) + [b[last]];
    }
  }

  // The transcript ends in the assistant message at c and some of its results.
  predicate OwedFrom(ms: seq<Message>, c: nat) {
    Owed(ms).Some?
    && c < |ms| && ms[c].role == Assistant && |ms| - 1 - c <= |ms[c].calls|
    && Owed(ms).value == ms[c].calls[|ms| - 1 - c..]
    && forall j :: c < j < |ms| ==> ms[j].role == Tool
  }

  lemma {:induction false} OwedShape(ms: seq<Message>) returns (c: nat)
    requires Owed(ms).Some? && Owed(ms).value != []
    ensures OwedFrom(ms, c)
  {
    var last := |ms| - 1;
    var before := ms[..last];
    if Owed(before).value == [] {
      c := last;
      assert ms[last].calls == ms[last].calls[0..];
    } else {
      c := OwedShape(before);
      assert ms[c].calls[last - 1 - c..][1..] == ms[c].calls[last - c..];
    }
  }

  // In a transcript without a break, an assistant message is answered as far as the transcript goes.
  lemma {:induction false} AnswersInOrder(ms: seq<Message>, i: nat, j: nat)
    requires Owed(ms).Some? && i < |ms| && ms[i].role == Assistant && j < |ms[i].calls| && i + 1 + j < |ms|
    ensures ms[i + 1 + j].role == Tool && ms[i + 1 + j].toolCallId == ms[i].calls[j]
  {
    OwedOfPrefix(ms, i + 1 + j);
    OwedInside(ms, i, j);
    OwedOfPrefix(ms, i + 2 + j);
    assert ms[..i + 2 + j][..i + 1 + j] == ms[..i + 1 + j];
  }

  lemma {:induction false} OwedOfPrefix(ms: seq<Message>, k: nat)
    requires Owed(ms).Some? && k <= |ms|
    ensures Owed(ms[..k]).Some?
    decreases |ms| - k
  {
    if k == |ms| {
      assert ms[..k] == ms;
    } else {
      OwedOfPrefix(ms, k + 1);
      assert ms[..k + 1][..k] == ms[..k];
    }
  }

  lemma {:induction false} OwedInside(ms: seq<Message>, i: nat, j: nat)
    requires Owed(ms).Some? && i < |ms| && ms[i].role == Assistant && j <= |ms[i].calls| && i + 1 + j <= |ms|
    ensures Owed(ms[..i + 1 + j]) == Some(ms[i].calls[j..])
  {
    OwedOfPrefix(ms, i + 1 + j);
    var upTo := ms[..i + 1 + j];
    assert upTo[..i + j] == ms[..i + j];
    if j == 0 {
      OwedOfPrefix(ms, i);
      assert ms[i].calls[0..] == ms[i].calls;
    } else {
      OwedInside(ms, i, j - 1);
      assert ms[i].calls[j - 1..][1..] == ms[i].calls[j..];
    }
  }

  lemma ResultWasOwed(ms: seq<Message>, i: nat)
    requires Owed(ms).Some? && i < |ms| && ms[i].role == Tool
    ensures Owed(ms[..i]).Some? && Owed(ms[..i]).value != [] && ms[i].toolCallId == Owed(ms[..i]).value[0]
  {
    OwedOfPrefix(ms, i + 1);
    assert ms[..i + 1][..i] == ms[..i];
  }

  lemma ResultHasCall(ms: seq<Message>, i: nat)
    requires Owed(ms).Some? && i < |ms| && ms[i].role == Tool
    ensures exists c: nat :: ResultOf(ms, i, c)
  {
    hide Owed;
    ResultWasOwed(ms, i);
    var before := ms[..i];
    var c := OwedShape(before);
    forall j | c < j < i
      ensures ms[j].role == Tool
    {
      assert ms[j] == before[j];
    }
    assert ms[c] == before[c];
    assert ResultOf(ms, i, c);
  }

  lemma AssistantIsAnswered(ms: seq<Message>, i: nat)
    requires Paired(ms) && i < |ms| && ms[i].role == Assistant
    ensures AnsweredAt(ms, i)
  {
    var n := |ms[i].calls|;
    assert ms[..|ms|] == ms;
    if |ms| <= i + n {
      OwedInside(ms, i, |ms| - 1 - i);
    }
    forall j: nat | j < n
      ensures IsAnswer(ms, i, j)
    {
      AnswersInOrder(ms, i, j);
    }
  }

  // Every assistant message is followed by its results, in order, and there are no other results.
  ghost predicate CallsAnsweredInPlace(ms: seq<Message>) {
    (forall i: nat :: i < |ms| && ms[i].role == Assistant ==> AnsweredAt(ms, i))
    && forall i: nat :: i < |ms| && ms[i].role == Tool ==> exists c: nat :: ResultOf(ms, i, c)
  }

  predicate Pending(ms: seq<Message>, k: nat, c: nat) {
    c < k <= |ms| && ms[c].role == Assistant && k - 1 - c < |ms[c].calls|
  }

  // Reading k messages leaves owed what the assistant message pending at k still lacks.
  ghost predicate OwedMatches(ms: seq<Message>, k: nat)
    requires k <= |ms|
  {
    Owed(ms[..k]).Some?
    && var owed := Owed(ms[..k]).value;
       if owed == [] then forall c: nat :: !Pending(ms, k, c)
       else exists c: nat :: Pending(ms, k, c) && owed == ms[c].calls[k - 1 - c..]
  }

  lemma AnswerAt(ms: seq<Message>, c: nat, k: nat)
    requires AnsweredAt(ms, c) && c < k <= c + |ms[c].calls|
    ensures ms[k].role == Tool && ms[k].toolCallId == ms[c].calls[k - c - 1]
  {
    assert IsAnswer(ms, c, k - c - 1);
  }

  lemma OnePending(ms: seq<Message>, k: nat, c: nat, c': nat)
    requires CallsAnsweredInPlace(ms) && Pending(ms, k, c) && Pending(ms, k, c')
    ensures c == c'
  {
    if c < c' {
      AnswerAt(ms, c, c');
    } else if c' < c {
      AnswerAt(ms, c', c);
    }
  }

  lemma ReadWhenIdle(ms: seq<Message>, at: nat)
    requires CallsAnsweredInPlace(ms) && at < |ms| && OwedMatches(ms, at) && Owed(ms[..at]).value == []
    ensures OwedMatches(ms, at + 1)
  {
    var k := at + 1;
    assert ms[..k][..at] == ms[..at];
    assert forall c: nat :: Pending(ms, k, c) && c < at ==> Pending(ms, at, c);
    if ms[at].role == Tool {
      var c: nat :| ResultOf(ms, at, c);
      assert Pending(ms, at, c);
    } else if ms[at].role == Assistant && ms[at].calls != [] {
      assert Pending(ms, k, at) && ms[at].calls == ms[at].calls[k - 1 - at..];
    }
  }

  lemma ReadWhenOwed(ms: seq<Message>, at: nat, c: nat)
    requires CallsAnsweredInPlace(ms) && at < |ms| && OwedMatches(ms, at)
    requires Pending(ms, at, c) && Owed(ms[..at]).value == ms[c].calls[at - 1 - c..]
    ensures OwedMatches(ms, at + 1)
  {
    var k := at + 1;
    var owed := Owed(ms[..at]).value;
    assert ms[..k][..at] == ms[..at];
    AnswerAt(ms, c, at);
    assert owed[1..] == ms[c].calls[k - 1 - c..];
    if owed[1..] == [] {
      forall c': nat
        ensures !Pending(ms, k, c')
      {
        if Pending(ms, k, c') && c' < at {
          OnePending(ms, at, c, c');
        }
      }
    } else {
      assert Pending(ms, k, c);
    }
  }

  lemma {:induction false} ReadingMatches(ms: seq<Message>, k: nat)
    requires CallsAnsweredInPlace(ms) && k <= |ms|
    ensures OwedMatches(ms, k)
  {
    if k > 0 {
      var at := k - 1;
      ReadingMatches(ms, at);
      if Owed(ms[..at]).value == [] {
        ReadWhenIdle(ms, at);
      } else {
        var c: nat :| Pending(ms, at, c) && Owed(ms[..at]).value == ms[c].calls[at - 1 - c..];
        ReadWhenOwed(ms, at, c);
      }
    }
  }

  /**
   Pairing, read from outside: a transcript is paired exactly when each assistant message with n calls
   is followed by its n results, same ids and same order, and every result is one of those.
   */
  lemma PairedMeaning(ms: seq<Message>)
    ensures Paired(ms) <==> CallsAnsweredInPlace(ms)
  {
    if Paired(ms) {
      forall i: nat | i < |ms| && ms[i].role == Assistant
        ensures AnsweredAt(ms, i)
      {
        AssistantIsAnswered(ms, i);
      }
      forall i: nat | i < |ms| && ms[i].role == Tool
        ensures exists c: nat :: ResultOf(ms, i, c)
      {
        ResultHasCall(ms, i);
      }
    }
    if CallsAnsweredInPlace(ms) {
      ReadingMatches(ms, |ms|);
      assert ms[..|ms|] == ms;
    }
  }

  // A paired transcript may be cut exactly in front of a message that is not a result.
  lemma CutOfPaired(ms: seq<Message>, k: nat)
    requires Paired(ms) && k <= |ms|
    ensures Paired(ms[..k]) && Paired(ms[k..]) <==> k == |ms| || ms[k].role != Tool
  {
    OwedOfPrefix(ms, k);
    if k < |ms| {
      OwedOfPrefix(ms, k + 1);
      assert ms[..k + 1][..k] == ms[..k];
      assert ms[..k + 1][k] == ms[k];
      if ms[k].role != Tool {
        assert Paired(ms[..k]);
      }
    } else {
      assert ms[..k] == ms && ms[k..] == [];
    }
    if Paired(ms[..k]) {
      OwedOfConcat(ms[..k], ms[k..]);
      assert ms[..k] + ms[k..] == ms;
    }
  }
}
