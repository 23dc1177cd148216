/** Event times, windows over them and a clock that never goes back. */
module SlidingWindow {
  predicate Sorted(times: seq<real>) {
    forall i, j :: 0 <= i < j < |times| ==> times[i] <= times[j]
  }

  // Any limit + 1 consecutive events take longer than the window.
  predicate Spaced(times: seq<real>, limit: nat, window: real) {
    forall i :: 0 <= i && i + limit < |times| ==> times[i + limit] - times[i] > window
  }

  // How many events fall into the closed interval.
  function CountIn(times: seq<real>, from: real, to: real): nat {
    if times == [] then 0 else
      var last := times[|times| - 1];
      CountIn(times[..|times| - 1], from, to) + if from <= last <= to then 1 else 0
  }

  lemma {:induction false} NoneIn(times: seq<real>, from: real, to: real)
    requires forall i :: 0 <= i < |times| ==> times[i] < from
    ensures CountIn(times, from, to) == 0
  {
    if times != [] {
      NoneIn(times[..|times| - 1], from, to);
    }
  }

  lemma {:induction false} CountAtMost(times: seq<real>, from: real, to: real, k: nat)
    requires k <= |times| && forall i :: 0 <= i < |times| - k ==> times[i] < from
    ensures CountIn(times, from, to) <= k
    decreases k
  {
    if k == 0 {
      NoneIn(times, from, to);
    } else {
      CountAtMost(times[..|times| - 1], from, to, k - 1);
    }
  }

  // Spacing keeps every window within the limit.
  lemma {:induction false} SpacedBoundsWindows(times: seq<real>, limit: nat, window: real, from: real)
    requires Sorted(times) && Spaced(times, limit, window)
    ensures CountIn(times, from, from + window) <= limit
  {
    if |times| > limit {
      var last := times[|times| - 1];
      if last <= from + window {
        var at := |times| - 1 - limit;
        assert times[at + limit] - times[at] > window;
        forall i | 0 <= i < |times| - limit
          ensures times[i] < from
        {
          assert i == at || times[i] <= times[at];
        }
        CountAtMost(times, from, from + window, limit);
      } else {
        SpacedBoundsWindows(times[..|times| - 1], limit, window, from);
      }
    } else {
      CountAtMost(times, from, from + window, |times|);
    }
  }

  lemma {:induction false} AllIn(times: seq<real>, from: real, to: real)
    requires forall i :: 0 <= i < |times| ==> from <= times[i] <= to
    ensures CountIn(times, from, to) == |times|
  {
    if times != [] {
      AllIn(times[..|times| - 1], from, to);
    }
  }

  lemma {:induction false} CountOfConcat(a: seq<real>, b: seq<real>, from: real, to: real)
    ensures CountIn(a + b, from, to) == CountIn(a, from, to) + CountIn(b, from, to)
  {
    if b == [] {
      assert a + b == a;
    } else {
      CountOfConcat(a, b[..|b| - 1], from, to);
      assert (a + b)[..|a + b| - 1] == a + b[..|b| - 1];
    }
  }

  /**
   What a limiter remembers of its events: all but the first gone ones, each of which left the window some
   time before now.
   */
  predicate Remembers(gone: nat, kept: seq<real>, history: seq<real>, window: real, now: real) {
    gone <= |history| && kept == history[gone..]
    && Sorted(history)
    && (forall i :: 0 <= i < |history| ==> history[i] <= now)
    && forall i :: 0 <= i < gone ==> history[i] < now - window
  }

  lemma SortedOneMore(history: seq<real>, at: real)
    requires Sorted(history) && forall i :: 0 <= i < |history| ==> history[i] <= at
    ensures Sorted(history + [at])
  {}

  lemma SpacedOneMore(gone: nat, history: seq<real>, window: real, now: real, at: real, limit: nat)
    requires gone <= |history| < gone + limit && Spaced(history, limit, window) && now <= at
    requires forall i :: 0 <= i < gone ==> history[i] < now - window
    ensures Spaced(history + [at], limit, window)
  {
    var more := history + [at];
    forall i | 0 <= i && i + limit < |more|
      ensures more[i + limit] - more[i] > window
    {
      if i + limit == |history| {
        assert i < gone && more[i] == history[i] && more[i + limit] == at;
      }
    }
  }

  // One more event, while fewer than the limit are remembered.
  lemma EventKeepsSpacing(gone: nat, kept: seq<real>, history: seq<real>, window: real, now: real, at: real, limit: nat)
    requires Remembers(gone, kept, history, window, now) && Spaced(history, limit, window)
    requires |kept| < limit && now <= at
    ensures Remembers(gone, kept + [at], history + [at], window, at) && Spaced(history + [at], limit, window)
  {
    hide Sorted, Spaced;
    SortedOneMore(history, at);
    SpacedOneMore(gone, history, window, now, at, limit);
  }

  // Forgetting the oldest event once it left the window.
  lemma ForgetOldest(gone: nat, kept: seq<real>, history: seq<real>, window: real, now: real)
    requires Remembers(gone, kept, history, window, now) && kept != [] && kept[0] < now - window
    ensures Remembers(gone + 1, kept[1..], history, window, now)
  {
    hide Sorted;
  }

  lemma TimePasses(gone: nat, kept: seq<real>, history: seq<real>, window: real, now: real, later: real)
    requires Remembers(gone, kept, history, window, now) && now <= later
    ensures Remembers(gone, kept, history, window, later)
  {
    hide Sorted;
  }

  lemma KeptAreSorted(gone: nat, kept: seq<real>, history: seq<real>, window: real, now: real)
    requires Remembers(gone, kept, history, window, now)
    ensures Sorted(kept)
  {
    forall i, j | 0 <= i < j < |kept|
      ensures kept[i] <= kept[j]
    {
      assert kept[i] == history[gone + i] && kept[j] == history[gone + j];
    }
  }

  class Clock {
    var now: real

    constructor (start: real)
      ensures now == start
    {
      now := start;
    }

    method Read() returns (t: real)
      modifies this
      ensures t == now >= old(now)
    {
      t := *;
      if t < now {
        t := now;
      }
      now := t;
    }
  }
}

/** The crash-only supervisor of sera/rpc/supervisor.py; the child and the stop signal are arbitrary. */
module Supervision {
  import opened SlidingWindow

  datatype State = Stopped | Running | Backoff | CircuitOpen

  datatype Action = Keep | Restart | CircuitBreak

  class Supervisor {
    const stormThreshold: int
    const stormWindow: real
    const clock: Clock
    var state: State
    var hasChild: bool
    var restartCount: nat
    var consecutiveFailures: nat
    var stopRequested: bool
    var restartTimes: seq<real>
    ghost var history: seq<real>
    ghost var gone: nat

    // history: the times of all restarts so far. The remembered ones lie in the window that ends with the last.
    ghost predicate Valid()
      reads this, clock
    {
      && stormWindow >= 0.0
      && Remembers(gone, restartTimes, history, stormWindow, clock.now)
      && restartCount == |history|
      && (history != [] ==> stormThreshold >= 1)
      && (stormThreshold >= 1 ==> |restartTimes| <= stormThreshold && Spaced(history, stormThreshold, stormWindow))
      && (restartTimes != [] ==> restartTimes[0] >= restartTimes[|restartTimes| - 1] - stormWindow)
    }

    constructor (stormThreshold: int, stormWindow: real, clock: Clock)
      requires stormWindow >= 0.0
      ensures this.stormThreshold == stormThreshold && this.stormWindow == stormWindow && this.clock == clock
      ensures Valid() && history == [] && state == Stopped && !stopRequested
    {
      this.stormThreshold, this.stormWindow, this.clock := stormThreshold, stormWindow, clock;
      state, hasChild, restartCount, consecutiveFailures := Stopped, false, 0, 0;
      stopRequested, restartTimes, history, gone := false, [], [], 0;
    }

    method StartOnce()
      modifies this`hasChild, this`state
      ensures hasChild && state == Running
    {
      hasChild, state := true, Running;
    }

    // _record_restart and the count: the restart is remembered, and what left the window is forgotten.
    method RecordRestart()
      requires Valid() && stormThreshold >= 1 && |restartTimes| < stormThreshold
      modifies this`restartTimes, this`history, this`restartCount, this`gone, clock
      ensures Valid() && clock.now >= old(clock.now) && history == old(history) + [clock.now]
    {
      hide Remembers, Spaced;
      ghost var before := clock.now;
      var now := clock.Read();
      EventKeepsSpacing(gone, restartTimes, history, stormWindow, before, now, stormThreshold);
      restartTimes := restartTimes + [now];
      history := history + [now];
      restartCount := restartCount + 1;
      var cutoff := now - stormWindow;
      while restartTimes != [] && restartTimes[0] < cutoff
        invariant Remembers(gone, restartTimes, history, stormWindow, now)
        invariant |restartTimes| <= stormThreshold && clock.now == now
        invariant history == old(history) + [now] && restartCount == |history|
            && Spaced(history, stormThreshold, stormWindow)
        invariant restartTimes != [] && restartTimes[|restartTimes| - 1] == now
        decreases |restartTimes|
      {
        ForgetOldest(gone, restartTimes, history, stormWindow, now);
        restartTimes, gone := restartTimes[1..], gone + 1;
      }
    }

    predicate StormTripped()
      reads this
    {
      |restartTimes| >= stormThreshold
    }

    function Decide(alive: bool): Action
      reads this
    {
      if stopRequested then CircuitBreak
      else if hasChild && alive then Keep
      else if StormTripped() then CircuitBreak
      else Restart
    }

    // A signal handler may ask for a stop at any time.
    method MaybeStop()
      modifies this`stopRequested
      ensures old(stopRequested) ==> stopRequested
    {
      var asked: bool := *;
      stopRequested := stopRequested || asked;
    }

    /**
     run, for at most maxSteps rounds; deaths counts those that found the child dead and no stop requested.
     Restarts stay spaced; the circuit opens only with as many restarts as the threshold in the window that
     ends with the last of them, and no restart follows. As long as it keeps running, a restart answers every
     death.
     */
    method Run(maxSteps: nat) returns (result: State, ghost deaths: nat)
      requires Valid()
      modifies this, clock
      ensures Valid() && old(history) <= history && result == state
      ensures hasChild || stopRequested
      ensures |history| <= |old(history)| + deaths <= |history| + 1
      ensures result == Running ==> |history| == |old(history)| + deaths
      ensures consecutiveFailures == old(consecutiveFailures) + |history| - |old(history)| ||
              (stopRequested && consecutiveFailures == old(consecutiveFailures) + |history| - |old(history)| + 1)
      ensures result == CircuitOpen && old(state) != CircuitOpen ==> StormTripped() && !stopRequested
      ensures old(StormTripped()) ==> history == old(history)
    {
      hide Remembers, Spaced;
      if !hasChild && !stopRequested {
        StartOnce();
      }
      var steps := 0;
      deaths := 0;
      while steps < maxSteps
        invariant Valid() && old(history) <= history
        invariant hasChild || stopRequested
        invariant |history| == |old(history)| + deaths
        invariant consecutiveFailures == old(consecutiveFailures) + deaths
        invariant state == CircuitOpen ==> old(state) == CircuitOpen
        invariant old(StormTripped()) ==> history == old(history) && StormTripped()
      {
        steps := steps + 1;
        ghost var before := clock.now;
        var now := clock.Read();
        TimePasses(gone, restartTimes, history, stormWindow, before, now);
        MaybeStop();
        var alive: bool := *;
        var action := Decide(alive);
        if action == Keep {
          state := Running;
          continue;
        }
        if action == CircuitBreak {
          state := if stopRequested then Stopped else CircuitOpen;
          return state, if stopRequested then deaths else deaths + 1;
        }
        deaths := deaths + 1;
        state := Backoff;
        consecutiveFailures := consecutiveFailures + 1;
        MaybeStop();
        if stopRequested {
          state := Stopped;
          return state, deaths;
        }
        RecordRestart();
        StartOnce();
      }
      result := state;
    }

    method MarkHealthy()
      modifies this`consecutiveFailures
      ensures consecutiveFailures == 0
    {
      consecutiveFailures := 0;
    }
  }

  // No window of the policy's length ever holds more restarts than the threshold.
  lemma RestartsAreBounded(s: Supervisor, from: real)
    requires s.Valid()
    ensures CountIn(s.history, from, from + s.stormWindow) <= if s.stormThreshold >= 1 then s.stormThreshold else 0
  {
    if s.stormThreshold >= 1 {
      SpacedBoundsWindows(s.history, s.stormThreshold, s.stormWindow, from);
    }
  }

  // When the breaker trips, that many restarts did fall into one window.
  lemma TrippedMeansStorm(s: Supervisor)
    requires s.Valid() && s.stormThreshold >= 1 && s.StormTripped()
    ensures var to := s.restartTimes[|s.restartTimes| - 1];
      CountIn(s.history, to - s.stormWindow, to) >= s.stormThreshold
  {
    hide CountIn, Spaced;
    var kept := s.restartTimes;
    var to := kept[|kept| - 1];
    KeptAreSorted(s.gone, kept, s.history, s.stormWindow, s.clock.now);
    assert s.history == s.history[..s.gone] + kept;
    forall i | 0 <= i < |kept|
      ensures to - s.stormWindow <= kept[i] <= to
    {
      assert i == 0 || kept[0] <= kept[i];
      assert i == |kept| - 1 || kept[i] <= to;
    }
    AllIn(kept, to - s.stormWindow, to);
    CountOfConcat(s.history[..s.gone], kept, to - s.stormWindow, to);
  }

  // How many of the remembered restarts lie in the window that ends now is how many restarts it holds.
  lemma CountNow(gone: nat, kept: seq<real>, history: seq<real>, window: real, now: real)
    requires Remembers(gone, kept, history, window, now)
    ensures CountIn(history, now - window, now) == CountIn(kept, now - window, now)
  {
    hide CountIn, Sorted;
    assert history == history[..gone] + kept;
    NoneIn(history[..gone], now - window, now);
    CountOfConcat(history[..gone], kept, now - window, now);
  }

  lemma {:induction false} CountAtMostAll(times: seq<real>, from: real, to: real)
    ensures CountIn(times, from, to) <= |times|
  {
    if times != [] {
      CountAtMostAll(times[..|times| - 1], from, to);
    }
  }

  /**
   The breaker forgets only when it records, so it can be tripped by a storm that has passed. It says what a
   count of the window that ends now would say exactly if it is not tripped or its oldest restart is in it.
   */
  lemma BreakerIsCurrent(s: Supervisor)
    requires s.Valid() && s.stormThreshold >= 1
    ensures var now := s.clock.now;
      (s.StormTripped() <==> CountIn(s.history, now - s.stormWindow, now) >= s.stormThreshold) <==>
      (s.StormTripped() ==> s.restartTimes[0] >= now - s.stormWindow)
  {
    hide CountIn, Spaced;
    var now, kept := s.clock.now, s.restartTimes;
    var from := now - s.stormWindow;
    CountNow(s.gone, kept, s.history, s.stormWindow, now);
    CountAtMostAll(kept, from, now);
    KeptAreSorted(s.gone, kept, s.history, s.stormWindow, now);
    if s.StormTripped() {
      forall i | 0 <= i < |kept| ensures kept[i] <= now && (kept[0] >= from ==> kept[i] >= from) {
        assert kept[i] == s.history[s.gone + i];
        assert i == 0 || kept[0] <= kept[i];
      }
      if kept[0] >= from {
        AllIn(kept, from, now);
      } else {
        OldestIsOut(kept, from, now);
      }
    }
  }

  lemma {:induction false} OldestIsOut(times: seq<real>, from: real, to: real)
    requires times != [] && times[0] < from
    ensures CountIn(times, from, to) < |times|
  {
    if |times| > 1 {
      OldestIsOut(times[..|times| - 1], from, to);
    }
  }

  // One restart trips a threshold of one; a hundred seconds later a window of sixty is empty and it still does.
  lemma StaleStorm(s: Supervisor)
    requires s.stormThreshold == 1 && s.stormWindow == 60.0 && s.clock.now == 100.0
    requires s.restartTimes == [0.0] && s.history == [0.0] && s.gone == 0 && s.restartCount == 1
    requires !s.stopRequested
    ensures s.Valid() && s.Decide(false) == CircuitBreak
    ensures CountIn(s.history, s.clock.now - s.stormWindow, s.clock.now) == 0
  {
    assert s.history[s.gone..] == [0.0];
    OldestIsOut(s.history, 40.0, 100.0);
  }
}

/** The proposal throttle of sera/curator/meta.py. */
module MetaCuration {
  import opened Wrappers
  import opened SlidingWindow

  datatype Outcome<T> = Outcome(accepted: seq<T>, dropped: seq<T>, throttled: Option<nat>)

  // The elements the mask marks with the given bit, in order.
  function Picked<T>(xs: seq<T>, mask: seq<bool>, bit: bool): seq<T>
    requires |mask| == |xs|
  {
    if xs == [] then [] else
      var last := |xs| - 1;
      Picked(xs[..last], mask[..last], bit) + if mask[last] == bit then [xs[last]] else []
  }

  lemma PickedAfter<T>(xs: seq<T>, mask: seq<bool>, x: T, b: bool, bit: bool)
    requires |mask| == |xs|
    ensures Picked(xs + [x], mask + [b], bit) == Picked(xs, mask, bit) + if b == bit then [x] else []
  {
    assert (xs + [x])[..|xs|] == xs && (mask + [b])[..|xs|] == mask;
  }

  // [t for t in times if t >= cutoff]
  function NotBefore(times: seq<real>, cutoff: real): seq<real> {
    if times == [] then [] else
      var last := |times| - 1;
      NotBefore(times[..last], cutoff) + if times[last] >= cutoff then [times[last]] else []
  }

  // The first k times are before the cutoff and the others are not.
  predicate CutsAt(times: seq<real>, k: nat, cutoff: real) {
    k <= |times| && (forall i :: 0 <= i < k ==> times[i] < cutoff)
    && forall i :: k <= i < |times| ==> times[i] >= cutoff
  }

  lemma {:induction false} SortedCut(times: seq<real>, cutoff: real) returns (k: nat)
    requires Sorted(times)
    ensures CutsAt(times, k, cutoff)
  {
    k := 0;
    while k < |times| && times[k] < cutoff
      invariant k <= |times| && forall i :: 0 <= i < k ==> times[i] < cutoff
    {
      k := k + 1;
    }
  }

  lemma SuffixOneMore(times: seq<real>, k: nat)
    requires k < |times|
    ensures times[k..] == times[..|times| - 1][k..] + [times[|times| - 1]]
  {}

  lemma {:induction false} NotBeforeIsSuffix(times: seq<real>, k: nat, cutoff: real)
    requires CutsAt(times, k, cutoff)
    ensures NotBefore(times, cutoff) == times[k..]
  {
    if times != [] {
      var last := |times| - 1;
      if k == |times| {
        NotBeforeIsSuffix(times[..last], last, cutoff);
      } else {
        NotBeforeIsSuffix(times[..last], k, cutoff);
        SuffixOneMore(times, k);
      }
    }
  }

  lemma ForgetBefore(gone: nat, kept: seq<real>, history: seq<real>, window: real, now: real) returns (k: nat)
    requires Remembers(gone, kept, history, window, now)
    ensures k <= |kept| && NotBefore(kept, now - window) == kept[k..]
    ensures Remembers(gone + k, kept[k..], history, window, now)
  {
    hide NotBefore;
    KeptAreSorted(gone, kept, history, window, now);
    k := SortedCut(kept, now - window);
    NotBeforeIsSuffix(kept, k, now - window);
    assert kept[k..] == history[gone + k..];
    forall i | 0 <= i < gone + k
      ensures history[i] < now - window
    {
      if gone <= i {
        assert history[i] == kept[i - gone];
      }
    }
  }

  lemma {:induction false} NotBeforeMembers(times: seq<real>, cutoff: real)
    ensures forall t :: t in NotBefore(times, cutoff) ==> t >= cutoff
  {
    if times != [] {
      NotBeforeMembers(times[..|times| - 1], cutoff);
    }
  }

  // When all that is remembered is in the window, its number is how many events the window holds.
  lemma CountRemembered(gone: nat, kept: seq<real>, history: seq<real>, window: real, now: real)
    requires Remembers(gone, kept, history, window, now) && forall t :: t in kept ==> t >= now - window
    ensures CountIn(history, now - window, now) == |kept|
  {
    hide CountIn, Sorted;
    assert history == history[..gone] + kept;
    NoneIn(history[..gone], now - window, now);
    forall i | 0 <= i < |kept| ensures now - window <= kept[i] <= now {
      assert kept[i] in kept && kept[i] == history[gone + i];
    }
    AllIn(kept, now - window, now);
    CountOfConcat(history[..gone], kept, now - window, now);
  }

  function Taken(mask: seq<bool>): (n: nat)
    ensures n <= |mask|
  {
    if mask == [] then 0 else Taken(mask[..|mask| - 1]) + if mask[|mask| - 1] then 1 else 0
  }

  // Whether proposal i was taken: exactly if the window that ended when it was looked at held fewer than the
  // maximum of the events before it. times are the events added for the proposals taken.
  predicate JudgedAt(before: seq<real>, max: nat, window: real, mask: seq<bool>, look: real, times: seq<real>, i: nat)
    requires i < |mask|
  {
    Taken(mask[..i]) <= |times|
    && (mask[i] <==> CountIn(before + times[..Taken(mask[..i])], look - window, look) < max)
  }

  ghost predicate Judged(
    before: seq<real>, max: nat, window: real, mask: seq<bool>, looks: seq<real>, times: seq<real>)
  {
    |looks| == |mask| && |times| == Taken(mask)
    && forall i :: 0 <= i < |mask| ==> JudgedAt(before, max, window, mask, looks[i], times, i)
  }

  lemma JudgedStays(
    before: seq<real>, max: nat, window: real, mask: seq<bool>, look: real, times: seq<real>, i: nat,
    take: bool, times': seq<real>)
    requires i < |mask| && JudgedAt(before, max, window, mask, look, times, i) && times <= times'
    ensures JudgedAt(before, max, window, mask + [take], look, times', i)
  {
    hide CountIn, Taken;
    assert (mask + [take])[..i] == mask[..i];
    assert times'[..Taken(mask[..i])] == times[..Taken(mask[..i])];
  }

  lemma JudgeOneMore(
    before: seq<real>, max: nat, window: real, mask: seq<bool>, looks: seq<real>, times: seq<real>,
    take: bool, look: real, times': seq<real>)
    requires Judged(before, max, window, mask, looks, times)
    requires take <==> CountIn(before + times, look - window, look) < max
    requires times <= times' && |times'| == |times| + if take then 1 else 0
    ensures Judged(before, max, window, mask + [take], looks + [look], times')
  {
    hide CountIn, JudgedAt;
    var more := mask + [take];
    assert more[..|mask|] == mask && times'[..|times|] == times;
    JudgedLast(before, max, window, mask, look, times, take, times');
    forall i | 0 <= i < |mask| ensures JudgedAt(before, max, window, more, looks[i], times', i) {
      JudgedStays(before, max, window, mask, looks[i], times, i, take, times');
    }
  }

  lemma JudgedLast(
    before: seq<real>, max: nat, window: real, mask: seq<bool>, look: real,
    times: seq<real>, take: bool, times': seq<real>)
    requires take <==> CountIn(before + times, look - window, look) < max
    requires times <= times' && |times| == Taken(mask)
    ensures JudgedAt(before, max, window, mask + [take], look, times', |mask|)
  {
    hide CountIn, Taken;
    assert (mask + [take])[..|mask|] == mask && times'[..|times|] == times;
  }

  class MetaCurator {
    const max: nat
    const window: real
    const clock: Clock
    var timestamps: seq<real>
    ghost var history: seq<real>
    ghost var gone: nat

    // history: the times of everything accepted since the last reset.
    ghost predicate Valid()
      reads this, clock
    {
      max >= 1 && window > 0.0
      && |timestamps| <= max
      && Remembers(gone, timestamps, history, window, clock.now) && Spaced(history, max, window)
    }

    constructor (max: nat, window: real, clock: Clock)
      requires max >= 1 && window > 0.0
      ensures Valid() && this.max == max && this.window == window && this.clock == clock && history == []
    {
      this.max, this.window, this.clock := max, window, clock;
      timestamps, history, gone := [], [], 0;
    }

    // The checks of __init__; None stands for ValueError.
    static method Create(max: int, window: real, clock: Clock) returns (curator: Option<MetaCurator>)
      ensures curator.Some? <==> max >= 1 && window > 0.0
      ensures curator.Some? ==> fresh(curator.value) && curator.value.Valid() && curator.value.clock == clock
    {
      if max < 1 || window <= 0.0 {
        return None;
      }
      var c := new MetaCurator(max, window, clock);
      curator := Some(c);
    }

    // _prune: what left the window is dropped.
    method Prune()
      requires Valid()
      modifies this`timestamps, this`gone, clock
      ensures Valid() && clock.now >= old(clock.now)
      ensures timestamps == NotBefore(old(timestamps), clock.now - window)
    {
      hide Remembers, Spaced, NotBefore;
      ghost var before := clock.now;
      var now := clock.Read();
      TimePasses(gone, timestamps, history, window, before, now);
      ghost var k := ForgetBefore(gone, timestamps, history, window, now);
      timestamps := NotBefore(timestamps, now - window);
      gone := gone + k;
    }

    // How many were accepted in the window that ends now.
    method InWindow() returns (count: nat)
      requires Valid()
      modifies this`timestamps, this`gone, clock
      ensures Valid() && count == |timestamps| && clock.now >= old(clock.now)
      ensures count == CountIn(history, clock.now - window, clock.now)
    {
      hide Remembers, Spaced, NotBefore;
      ghost var before := timestamps;
      Prune();
      NotBeforeMembers(before, clock.now - window);
      CountRemembered(gone, timestamps, history, window, clock.now);
      count := |timestamps|;
    }

    method IsThrottled() returns (throttled: bool)
      requires Valid()
      modifies this`timestamps, this`gone, clock
      ensures Valid() && (throttled <==> CountIn(history, clock.now - window, clock.now) >= max)
    {
      var count := InWindow();
      throttled := count >= max;
    }

    /**
     accept: accepted and dropped part the proposals, both in their order. A proposal is accepted if and only
     if the window that ends when it is looked at holds fewer than the maximum of those accepted before it.
     */
    method Accept<T>(proposals: seq<T>)
      returns (result: Outcome<T>, ghost mask: seq<bool>, ghost looks: seq<real>, ghost times: seq<real>)
      requires Valid()
      modifies this, clock
      ensures Valid() && history == old(history) + times && |mask| == |proposals|
      ensures result.accepted == Picked(proposals, mask, true) && result.dropped == Picked(proposals, mask, false)
      ensures Judged(old(history), max, window, mask, looks, times)
      ensures forall t :: t in looks ==> old(clock.now) <= t <= clock.now
      ensures result.throttled.Some? <==> result.dropped != []
      ensures result.throttled.Some? ==> result.throttled.value == CountIn(history, clock.now - window, clock.now)
    {
      hide Remembers, Spaced, NotBefore, Picked, CountIn, Judged;
      var accepted: seq<T>, dropped: seq<T> := [], [];
      mask, looks, times := [], [], [];
      assert proposals[..0] == [];
      NothingPicked<T>();
      NothingJudged(history, max, window);
      for i := 0 to |proposals|
        invariant Valid() && history == old(history) + times && |mask| == i
        invariant accepted == Picked(proposals[..i], mask, true) && dropped == Picked(proposals[..i], mask, false)
        invariant Judged(old(history), max, window, mask, looks, times)
        invariant old(clock.now) <= clock.now && forall t :: t in looks ==> old(clock.now) <= t <= clock.now
      {
        var count := InWindow();
        assert proposals[..i + 1] == proposals[..i] + [proposals[i]];
        PickedAfter(proposals[..i], mask, proposals[i], count < max, true);
        PickedAfter(proposals[..i], mask, proposals[i], count < max, false);
        ghost var look, taken := clock.now, times;
        if count < max {
          ghost var before := clock.now;
          var at := clock.Read();
          EventKeepsSpacing(gone, timestamps, history, window, before, at, max);
          timestamps := timestamps + [at];
          history := history + [at];
          times := times + [at];
          accepted := accepted + [proposals[i]];
        } else {
          dropped := dropped + [proposals[i]];
        }
        JudgeOneMore(old(history), max, window, mask, looks, taken, count < max, look, times);
        mask, looks := mask + [count < max], looks + [look];
      }
      assert proposals[..|proposals|] == proposals;
      var throttled := None;
      if dropped != [] {
        var count := InWindow();
        throttled := Some(count);
      }
      result := Outcome(accepted, dropped, throttled);
    }

    method Reset()
      requires Valid()
      modifies this`timestamps, this`history, this`gone
      ensures Valid() && history == []
    {
      timestamps, history, gone := [], [], 0;
    }
  }

  lemma NothingJudged(before: seq<real>, max: nat, window: real)
    ensures Judged(before, max, window, [], [], [])
  {}

  lemma NothingPicked<T>()
    ensures Picked<T>([], [], true) == [] && Picked<T>([], [], false) == []
  {}

  // Between resets no window holds more accepted proposals than the maximum.
  lemma AcceptedAreBounded(curator: MetaCurator, from: real)
    requires curator.Valid()
    ensures CountIn(curator.history, from, from + curator.window) <= curator.max
  {
    SpacedBoundsWindows(curator.history, curator.max, curator.window, from);
  }
}
