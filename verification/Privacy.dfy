/** Detection and redaction of personal data, sera/memory/privacy.py, with the pattern matches as inputs. */
module Privacy {
  import opened Sequences
  import opened Wrappers

  // ---------- the Luhn check ----------

  predicate IsDigit(c: char) {
    '0' <= c <= '9'
  }

  function Digit(c: char): int {
    c as int - '0' as int
  }

  predicate AllDigits(s: string) {
    forall i :: 0 <= i < |s| ==> IsDigit(s[i])
  }

  // What a digit contributes, counted from the right: every second one is doubled and its digits added.
  function Weighted(fromRight: nat, n: int): int {
    if fromRight % 2 == 0 then n else if 2 * n > 9 then 2 * n - 9 else 2 * n
  }

  function LuhnTotal(s: string, fromRight: nat): int {
    if s == "" then 0
    else Weighted(fromRight, Digit(s[|s| - 1])) + LuhnTotal(s[..|s| - 1], fromRight + 1)
  }

  // Of the digits counted from the right, starting with 0, the odd ones count double, digit by digit.
  lemma WeightIs(fromRight: nat, n: int)
    requires 0 <= n <= 9
    ensures fromRight % 2 == 0 ==> Weighted(fromRight, n) == n
    ensures fromRight % 2 == 1 ==> Weighted(fromRight, n) == (2 * n) / 10 + (2 * n) % 10
  {}

  predicate LuhnValid(s: string) {
    AllDigits(s) && 13 <= |s| <= 19 && LuhnTotal(s, 0) % 10 == 0
  }

  // _luhn_ok
  method LuhnOk(digits: string) returns (ok: bool)
    ensures ok <==> LuhnValid(digits)
  {
    if !AllDigits(digits) || !(13 <= |digits| <= 19) {
      return false;
    }
    var total := 0;
    assert digits[..|digits|] == digits;
    for i := 0 to |digits|
      invariant total + LuhnTotal(digits[..|digits| - i], i) == LuhnTotal(digits, 0)
    {
      var rest := digits[..|digits| - i];
      assert rest[..|rest| - 1] == digits[..|digits| - (i + 1)];
      var n := Digit(rest[|rest| - 1]);
      if i % 2 == 1 {
        n := n * 2;
        if n > 9 {
          n := n - 9;
        }
      }
      total := total + n;
    }
    ok := total % 10 == 0;
  }

  lemma DigitsAre(c: char)
    ensures IsDigit(c) <==> c in "0123456789"
    ensures IsDigit(c) ==> "0123456789"[Digit(c)] == c
  {
    assert "0123456789"[0] == '0' && "0123456789"[1] == '1' && "0123456789"[2] == '2' && "0123456789"[3] == '3'
        && "0123456789"[4] == '4' && "0123456789"[5] == '5' && "0123456789"[6] == '6' && "0123456789"[7] == '7'
        && "0123456789"[8] == '8' && "0123456789"[9] == '9';
    if IsDigit(c) {
      var n := Digit(c);
      assert n == 0 || n == 1 || n == 2 || n == 3 || n == 4 || n == 5 || n == 6 || n == 7 || n == 8 || n == 9;
    }
  }

  // Card numbers have 13 to 19 digits.
  lemma ZerosAreValid(s: string)
    requires forall i :: 0 <= i < |s| ==> s[i] == '0'
    ensures LuhnValid(s) <==> 13 <= |s| <= 19
  {
    ZerosTotal(s, 0);
  }

  lemma {:induction false} ZerosTotal(s: string, fromRight: nat)
    requires forall i :: 0 <= i < |s| ==> s[i] == '0'
    ensures LuhnTotal(s, fromRight) == 0
  {
    if s != "" {
      ZerosTotal(s[..|s| - 1], fromRight + 1);
    }
  }

  // A well-known number that passes, and the one with its first digit moved to the end, which does not.
  lemma KnownNumbers()
    ensures LuhnValid("4111111111111111") && !LuhnValid("1111111111111114")
  {
    var ones := "111111111111111";
    OnesTotal(ones, 0);
    OnesTotal(ones, 1);
    assert "4111111111111111" == "4" + ones;
    assert "1111111111111114"[..15] == ones;
    FirstCounts("4", ones, 0);
    assert LuhnTotal("4", 15) == 8 by {
      assert "4"[..0] == "";
    }
  }

  lemma {:induction false} OnesTotal(s: string, fromRight: nat)
    requires forall i :: 0 <= i < |s| ==> s[i] == '1'
    ensures LuhnTotal(s, fromRight) == |s| + (|s| + fromRight % 2) / 2
  {
    if s != "" {
      OnesTotal(s[..|s| - 1], fromRight + 1);
    }
  }

  lemma {:induction false} FirstCounts(a: string, b: string, fromRight: nat)
    ensures LuhnTotal(a + b, fromRight) == LuhnTotal(a, fromRight + |b|) + LuhnTotal(b, fromRight)
  {
    if b == "" {
      assert a + b == a;
    } else {
      assert (a + b)[..|a + b| - 1] == a + b[..|b| - 1];
      FirstCounts(a, b[..|b| - 1], fromRight + 1);
    }
  }

  // Changing the digit at k changes the total by the change of its contribution.
  lemma {:induction false} TotalAfterChange(s: string, k: nat, c: char, fromRight: nat)
    requires k < |s|
    ensures LuhnTotal(s[k := c], fromRight) - LuhnTotal(s, fromRight)
         == Weighted(fromRight + |s| - 1 - k, Digit(c)) - Weighted(fromRight + |s| - 1 - k, Digit(s[k]))
  {
    var last := |s| - 1;
    if k == last {
      assert s[k := c][..last] == s[..last];
    } else {
      assert s[k := c][..last] == s[..last][k := c];
      TotalAfterChange(s[..last], k, c, fromRight + 1);
    }
  }

  lemma WeightTellsDigits(fromRight: nat, a: int, b: int)
    requires 0 <= a <= 9 && 0 <= b <= 9 && a != b
    ensures (Weighted(fromRight, a) - Weighted(fromRight, b)) % 10 != 0
  {}

  lemma SumIndivisible(x: int, d: int)
    requires x % 10 == 0
    ensures (x + d) % 10 == 0 <==> d % 10 == 0
  {}

  // Every single wrong digit is caught.
  lemma WrongDigitIsCaught(s: string, k: nat, c: char)
    requires LuhnValid(s) && k < |s| && IsDigit(c) && c != s[k]
    ensures !LuhnValid(s[k := c])
  {
    hide LuhnTotal, Weighted;
    var at := |s| - 1 - k;
    TotalAfterChange(s, k, c, 0);
    WeightTellsDigits(at, Digit(c), Digit(s[k]));
    SumIndivisible(LuhnTotal(s, 0), Weighted(at, Digit(c)) - Weighted(at, Digit(s[k])));
  }

  function Swapped(s: string, k: nat): string
    requires k + 1 < |s|
  {
    s[k := s[k + 1]][k + 1 := s[k]]
  }

  predicate NineAndZero(a: char, b: char) {
    (a == '0' && b == '9') || (a == '9' && b == '0')
  }

  // Of the swaps of two adjacent digits exactly 09 and 90 (and equal digits) go unnoticed.
  lemma SwapIsCaught(s: string, k: nat)
    requires LuhnValid(s) && k + 1 < |s|
    ensures LuhnValid(Swapped(s, k)) <==> s[k] == s[k + 1] || NineAndZero(s[k], s[k + 1])
  {
    hide LuhnTotal, Weighted;
    var once := s[k := s[k + 1]];
    TotalAfterChange(s, k, s[k + 1], 0);
    TotalAfterChange(once, k + 1, s[k], 0);
    var a, b := Digit(s[k]), Digit(s[k + 1]);
    var left, right := |s| - 1 - k, |s| - 2 - k;
    SwapChange(left, right, a, b);
    SumIndivisible(LuhnTotal(s, 0), Weighted(left, b) - Weighted(left, a) + Weighted(right, a) - Weighted(right, b));
    SwappedDigits(s, k);
  }

  lemma SwappedDigits(s: string, k: nat)
    requires AllDigits(s) && k + 1 < |s|
    ensures AllDigits(Swapped(s, k)) && |Swapped(s, k)| == |s|
  {}

  lemma SwapChange(left: nat, right: nat, a: int, b: int)
    requires left == right + 1 && 0 <= a <= 9 && 0 <= b <= 9
    ensures (Weighted(left, b) - Weighted(left, a) + Weighted(right, a) - Weighted(right, b)) % 10 == 0
      <==> a == b || (a == 0 && b == 9) || (a == 9 && b == 0)
  {
    assert left % 2 != right % 2;
  }

  // ---------- detection ----------

  datatype Hit = Hit(kind: string, start: nat, end: nat)

  // The matches of one detector, in the order its pattern finds them.
  datatype Detector = Detector(kind: string, spans: seq<(nat, nat)>)

  const CREDIT_CARD := "credit_card"

  // Patterns match non-empty spans of the text.
  predicate SpansFit(text: string, detectors: seq<Detector>) {
    forall d :: d in detectors ==> forall s :: s in d.spans ==> s.0 < s.1 <= |text|
  }

  function DigitsOf(s: string): string {
    if s == "" then "" else (if IsDigit(s[0]) then [s[0]] else "") + DigitsOf(s[1..])
  }

  // The digits of a match are its digits in order, whatever stands between them.
  lemma {:induction false} DigitsOfAre(a: string, b: string)
    ensures DigitsOf(a + b) == DigitsOf(a) + DigitsOf(b)
    ensures AllDigits(a) ==> DigitsOf(a) == a
    ensures (forall i :: 0 <= i < |a| ==> !IsDigit(a[i])) ==> DigitsOf(a) == ""
  {
    if a == "" {
      assert a + b == b;
    } else {
      DigitsOfAre(a[1..], b);
      assert (a + b)[1..] == a[1..] + b;
    }
  }

  predicate Accepted(text: string, kind: string, span: (nat, nat))
    requires span.0 < span.1 <= |text|
  {
    kind == CREDIT_CARD ==> LuhnValid(DigitsOf(text[span.0..span.1]))
  }

  // The hit is a match of some detector that passes its filter.
  predicate IsRawHit(text: string, detectors: seq<Detector>, h: Hit)
    requires SpansFit(text, detectors)
  {
    exists d :: d in detectors && d.kind == h.kind && (h.start, h.end) in d.spans
        && Accepted(text, h.kind, (h.start, h.end))
  }

  // sort by start, longer first; Python's sort keeps the order of equal keys.
  predicate NotAfter(a: Hit, b: Hit) {
    a.start < b.start || (a.start == b.start && a.end >= b.end)
  }

  function Insert(sorted: seq<Hit>, h: Hit): seq<Hit> {
    if sorted == [] || NotAfter(sorted[|sorted| - 1], h) then sorted + [h]
    else Insert(sorted[..|sorted| - 1], h) + [sorted[|sorted| - 1]]
  }

  function SortHits(hits: seq<Hit>): seq<Hit> {
    if hits == [] then [] else Insert(SortHits(hits[..|hits| - 1]), hits[|hits| - 1])
  }

  predicate Ordered(hits: seq<Hit>) {
    forall i, j :: 0 <= i < j < |hits| ==> NotAfter(hits[i], hits[j])
  }

  lemma {:induction false} InsertKeeps(sorted: seq<Hit>, h: Hit)
    requires Ordered(sorted)
    ensures Ordered(Insert(sorted, h)) && forall x :: x in Insert(sorted, h) <==> x in sorted || x == h
  {
    if sorted != [] && !NotAfter(sorted[|sorted| - 1], h) {
      var front, last := sorted[..|sorted| - 1], sorted[|sorted| - 1];
      InsertKeeps(front, h);
      var inner := Insert(front, h);
      assert sorted == front + [last];
      forall i | 0 <= i < |inner|
        ensures NotAfter(inner[i], last)
      {
        assert inner[i] in inner;
      }
    }
  }

  lemma {:induction false} SortSorts(hits: seq<Hit>)
    ensures Ordered(SortHits(hits)) && forall x :: x in SortHits(hits) <==> x in hits
  {
    if hits != [] {
      var front, last := hits[..|hits| - 1], hits[|hits| - 1];
      SortSorts(front);
      InsertKeeps(SortHits(front), last);
      assert hits == front + [last];
    }
  }

  predicate Overlaps(a: Hit, b: Hit) {
    a.start < b.end && b.start < a.end
  }

  predicate Disjoint(hits: seq<Hit>) {
    forall i, j :: 0 <= i < j < |hits| ==> hits[i].end <= hits[j].start
  }

  // Some kept hit overlaps h and comes no later in the order of the sort.
  predicate Represented(out: seq<Hit>, h: Hit) {
    exists k :: k in out && Overlaps(h, k) && NotAfter(k, h)
  }

  lemma StillRepresented(out: seq<Hit>, h: Hit, more: Hit)
    requires Represented(out, h)
    ensures Represented(out + [more], h)
  {
    var k :| k in out && Overlaps(h, k) && NotAfter(k, h);
    assert k in out + [more];
  }

  // What holds of the kept hits after the first i sorted ones.
  ghost predicate Swept(sorted: seq<Hit>, i: nat, out: seq<Hit>) {
    i <= |sorted| && Disjoint(out) && (forall h :: h in out ==> h in sorted[..i])
    && forall j :: 0 <= j < i ==> Represented(out, sorted[j])
  }

  lemma SweepDrops(sorted: seq<Hit>, i: nat, out: seq<Hit>)
    requires Ordered(sorted) && Swept(sorted, i, out) && i < |sorted| && out != []
    requires sorted[i].start < sorted[i].end && sorted[i].start < out[|out| - 1].end
    ensures Swept(sorted, i + 1, out)
  {
    hide Represented, Disjoint;
    var last := out[|out| - 1];
    assert last in sorted[..i];
    assert sorted[..i + 1] == sorted[..i] + [sorted[i]];
    assert Represented(out, sorted[i]) by {
      IsRepresented(out, sorted[i], last);
    }
  }

  lemma IsRepresented(out: seq<Hit>, h: Hit, k: Hit)
    requires k in out && Overlaps(h, k) && NotAfter(k, h)
    ensures Represented(out, h)
  {}

  lemma SweepKeeps(sorted: seq<Hit>, i: nat, out: seq<Hit>)
    requires Ordered(sorted) && Swept(sorted, i, out) && i < |sorted|
    requires sorted[i].start < sorted[i].end && forall h :: h in sorted ==> h.start < h.end
    requires out != [] ==> out[|out| - 1].end <= sorted[i].start
    ensures Swept(sorted, i + 1, out + [sorted[i]])
  {
    hide Represented, Ordered;
    var h := sorted[i];
    assert sorted[..i + 1] == sorted[..i] + [h];
    assert h in out + [h];
    IsRepresented(out + [h], h, h);
    forall j | 0 <= j < i
      ensures Represented(out + [h], sorted[j])
    {
      StillRepresented(out, sorted[j], h);
    }
    forall a | 0 <= a < |out|
      ensures out[a].end <= h.start
    {
      if a < |out| - 1 {
        assert out[|out| - 1] in sorted[..i];
        assert out[a].end <= out[|out| - 1].start;
      }
    }
  }

  // The hits that a sweep from the left keeps.
  function Kept(sorted: seq<Hit>): seq<Hit> {
    if sorted == [] then [] else
      var out, h := Kept(sorted[..|sorted| - 1]), sorted[|sorted| - 1];
      if out != [] && h.start < out[|out| - 1].end then out else out + [h]
  }

  // The sweep over the sorted hits: one that starts before the end of the last kept one is dropped.
  method Sweep(sorted: seq<Hit>) returns (out: seq<Hit>)
    requires Ordered(sorted) && forall h :: h in sorted ==> h.start < h.end
    ensures Disjoint(out) && forall h :: h in out ==> h in sorted
    ensures forall h :: h in sorted ==> Represented(out, h)
    ensures out == Kept(sorted)
  {
    hide Ordered, Disjoint, Represented;
    out := [];
    var lastEnd: int := -1;
    assert Disjoint([]) by { NoHitsAreDisjoint(); }
    for i := 0 to |sorted|
      invariant lastEnd == if out == [] then -1 else out[|out| - 1].end
      invariant Swept(sorted, i, out) && out == Kept(sorted[..i])
    {
      var h := sorted[i];
      assert h in sorted && sorted[..i + 1][..i] == sorted[..i];
      if h.start < lastEnd {
        SweepDrops(sorted, i, out);
        continue;
      }
      SweepKeeps(sorted, i, out);
      out := out + [h];
      lastEnd := h.end;
    }
    assert sorted[..|sorted|] == sorted;
  }

  lemma NoHitsAreDisjoint()
    ensures Disjoint([])
  {}

  function Accept(text: string, kind: string, spans: seq<(nat, nat)>): seq<Hit>
    requires forall s :: s in spans ==> s.0 < s.1 <= |text|
  {
    if spans == [] then [] else
      var last := |spans| - 1;
      assert spans[last] in spans;
      Accept(text, kind, spans[..last])
      + if Accepted(text, kind, spans[last]) then [Hit(kind, spans[last].0, spans[last].1)] else []
  }

  // The hits of all detectors, in detector order.
  function RawHits(text: string, detectors: seq<Detector>): seq<Hit>
    requires SpansFit(text, detectors)
  {
    if detectors == [] then [] else
      var last := |detectors| - 1;
      assert detectors[last] in detectors;
      RawHits(text, detectors[..last]) + Accept(text, detectors[last].kind, detectors[last].spans)
  }

  lemma {:induction false} AcceptMembers(text: string, kind: string, spans: seq<(nat, nat)>, h: Hit)
    requires forall s :: s in spans ==> s.0 < s.1 <= |text|
    ensures h in Accept(text, kind, spans) <==>
            h.kind == kind && (h.start, h.end) in spans && Accepted(text, kind, (h.start, h.end))
  {
    if spans != [] {
      var front, last := spans[..|spans| - 1], spans[|spans| - 1];
      assert spans == front + [last];
      AcceptMembers(text, kind, front, h);
      assert (h.start, h.end) == last <==> h == Hit(h.kind, last.0, last.1);
    }
  }

  lemma {:induction false} RawHitMembers(text: string, detectors: seq<Detector>, h: Hit)
    requires SpansFit(text, detectors)
    ensures h in RawHits(text, detectors) <==> IsRawHit(text, detectors, h)
    ensures h in RawHits(text, detectors) ==> h.start < h.end <= |text|
  {
    if detectors != [] {
      var front, last := detectors[..|detectors| - 1], detectors[|detectors| - 1];
      assert detectors == front + [last];
      assert last in detectors;
      RawHitMembers(text, front, h);
      AcceptMembers(text, last.kind, last.spans, h);
    }
  }

  method CollectRaw(text: string, detectors: seq<Detector>) returns (raw: seq<Hit>)
    requires SpansFit(text, detectors)
    ensures raw == RawHits(text, detectors)
  {
    raw := [];
    for d := 0 to |detectors|
      invariant raw == RawHits(text, detectors[..d])
    {
      assert detectors[..d + 1][..d] == detectors[..d];
      assert detectors[d] in detectors;
      var spans := detectors[d].spans;
      ghost var before := raw;
      for s := 0 to |spans|
        invariant raw == before + Accept(text, detectors[d].kind, spans[..s])
      {
        assert spans[..s + 1][..s] == spans[..s];
        assert spans[s] in spans;
        if Accepted(text, detectors[d].kind, spans[s]) {
          raw := raw + [Hit(detectors[d].kind, spans[s].0, spans[s].1)];
        }
      }
      assert spans[..|spans|] == spans;
    }
    assert detectors[..|detectors|] == detectors;
  }

  // What detect returns.
  function Detected(text: string, detectors: seq<Detector>): seq<Hit>
    requires SpansFit(text, detectors)
  {
    Kept(SortHits(RawHits(text, detectors)))
  }

  // The first hit with the given span.
  function FirstOfSpan(hits: seq<Hit>, start: nat, end: nat): Option<Hit> {
    if hits == [] then None else
      var last := hits[|hits| - 1];
      var before := FirstOfSpan(hits[..|hits| - 1], start, end);
      if before.Some? then before else if (last.start, last.end) == (start, end) then Some(last) else None
  }

  lemma FirstOneMore(hits: seq<Hit>, h: Hit, start: nat, end: nat)
    ensures var before := FirstOfSpan(hits, start, end);
      FirstOfSpan(hits + [h], start, end) ==
      if before.Some? then before else if (h.start, h.end) == (start, end) then Some(h) else None
  {
    assert (hits + [h])[..|hits|] == hits;
  }

  // The sort is stable: hits with one span keep their order.
  lemma {:induction false} InsertIsStable(sorted: seq<Hit>, h: Hit, start: nat, end: nat)
    ensures FirstOfSpan(Insert(sorted, h), start, end) == FirstOfSpan(sorted + [h], start, end)
  {
    FirstOneMore(sorted, h, start, end);
    if sorted != [] && !NotAfter(sorted[|sorted| - 1], h) {
      var front, last := sorted[..|sorted| - 1], sorted[|sorted| - 1];
      assert sorted == front + [last];
      InsertIsStable(front, h, start, end);
      FirstOneMore(front, h, start, end);
      FirstOneMore(front, last, start, end);
      FirstOneMore(Insert(front, h), last, start, end);
    }
  }

  lemma {:induction false} SortIsStable(hits: seq<Hit>, start: nat, end: nat)
    ensures FirstOfSpan(SortHits(hits), start, end) == FirstOfSpan(hits, start, end)
  {
    if hits != [] {
      var front, last := hits[..|hits| - 1], hits[|hits| - 1];
      assert hits == front + [last];
      SortIsStable(front, start, end);
      InsertIsStable(SortHits(front), last, start, end);
      FirstOneMore(SortHits(front), last, start, end);
      FirstOneMore(front, last, start, end);
    }
  }

  lemma {:induction false} NoneBefore(hits: seq<Hit>, start: nat, end: nat)
    requires forall h :: h in hits ==> (h.start, h.end) != (start, end)
    ensures FirstOfSpan(hits, start, end) == None
  {
    if hits != [] {
      NoneBefore(hits[..|hits| - 1], start, end);
    }
  }

  lemma {:induction false} KeptIsSwept(sorted: seq<Hit>)
    requires Ordered(sorted) && forall h :: h in sorted ==> h.start < h.end
    ensures Swept(sorted, |sorted|, Kept(sorted))
  {
    hide Disjoint, Represented, Ordered;
    if sorted == [] {
      NoHitsAreDisjoint();
    } else {
      var n := |sorted| - 1;
      FrontIsOrdered(sorted, n);
      KeptIsSwept(sorted[..n]);
      var out := Kept(sorted[..n]);
      SweptOfFront(sorted, n, out);
      if out != [] && sorted[n].start < out[|out| - 1].end {
        SweepDrops(sorted, n, out);
      } else {
        SweepKeeps(sorted, n, out);
      }
    }
  }

  // Of several hits with one span, the sweep keeps at most the first.
  lemma {:induction false} KeptAreFirst(sorted: seq<Hit>)
    requires Ordered(sorted) && forall h :: h in sorted ==> h.start < h.end
    ensures forall h :: h in Kept(sorted) ==> FirstOfSpan(sorted, h.start, h.end) == Some(h)
  {
    hide Disjoint, Represented, Ordered, FirstOfSpan, Swept;
    if sorted != [] {
      var n := |sorted| - 1;
      var front, x := sorted[..n], sorted[n];
      assert sorted == front + [x];
      FrontIsOrdered(sorted, n);
      KeptAreFirst(front);
      var out := Kept(front);
      forall h | h in out ensures FirstOfSpan(sorted, h.start, h.end) == Some(h) {
        FirstOneMore(front, x, h.start, h.end);
      }
      if out == [] || out[|out| - 1].end <= x.start {
        KeptIsSwept(front);
        NoneWithLaterStart(front, out, x);
        FirstOneMore(front, x, x.start, x.end);
      }
    }
  }

  lemma NoneWithLaterStart(front: seq<Hit>, out: seq<Hit>, x: Hit)
    requires Swept(front, |front|, out) && (out != [] ==> out[|out| - 1].end <= x.start)
    requires forall h :: h in front ==> h.start < h.end
    ensures FirstOfSpan(front, x.start, x.end) == None
  {
    hide Disjoint, Represented;
    assert front[..|front|] == front;
    forall h | h in front ensures (h.start, h.end) != (x.start, x.end) {
      var j :| 0 <= j < |front| && front[j] == h;
      assert Represented(out, front[j]);
      LaterStart(out, h, x);
    }
    NoneBefore(front, x.start, x.end);
  }

  lemma FrontIsOrdered(sorted: seq<Hit>, n: nat)
    requires Ordered(sorted) && n <= |sorted|
    ensures Ordered(sorted[..n])
  {}

  lemma SweptOfFront(sorted: seq<Hit>, n: nat, out: seq<Hit>)
    requires n <= |sorted| && Swept(sorted[..n], n, out)
    ensures Swept(sorted, n, out)
  {
    hide Disjoint, Represented;
    assert sorted[..n][..n] == sorted[..n];
    forall j | 0 <= j < n ensures Represented(out, sorted[j]) {
      assert sorted[..n][j] == sorted[j];
    }
  }

  lemma LaterStart(out: seq<Hit>, h: Hit, x: Hit)
    requires Represented(out, h) && Disjoint(out) && (out != [] ==> out[|out| - 1].end <= x.start)
    requires forall k :: k in out ==> k.start < k.end
    ensures h.start < x.start
  {
    var k :| k in out && Overlaps(h, k) && NotAfter(k, h);
    var i :| 0 <= i < |out| && out[i] == k;
    assert out[|out| - 1] in out;
    assert i < |out| - 1 ==> k.end <= out[|out| - 1].start;
  }

  // Each returned hit is the first one of its span: among equal spans the earlier detector wins.
  lemma EarlierDetectorWins(text: string, detectors: seq<Detector>)
    requires SpansFit(text, detectors)
    ensures forall h :: h in Detected(text, detectors) ==>
            FirstOfSpan(RawHits(text, detectors), h.start, h.end) == Some(h)
  {
    hide IsRawHit, RawHits, Ordered, Kept, SpansFit, FirstOfSpan, SortHits, Swept;
    var raw := RawHits(text, detectors);
    SortSorts(raw);
    forall h | h in SortHits(raw) ensures h.start < h.end {
      RawHitMembers(text, detectors, h);
    }
    KeptAreFirst(SortHits(raw));
    forall h | h in Detected(text, detectors) ensures FirstOfSpan(raw, h.start, h.end) == Some(h) {
      SortIsStable(raw, h.start, h.end);
    }
  }

  // ---------- first match wins ----------

  predicate OverlapsSome(out: seq<Hit>, h: Hit) {
    exists k :: k in out && Overlaps(h, k)
  }

  // The documented rule: a hit is dropped if and only if it overlaps one kept earlier in detector order.
  function FirstCome(raw: seq<Hit>): seq<Hit> {
    if raw == [] then [] else
      var out, h := FirstCome(raw[..|raw| - 1]), raw[|raw| - 1];
      if OverlapsSome(out, h) then out else out + [h]
  }

  predicate NonEmpty(raw: seq<Hit>) {
    forall h :: h in raw ==> h.start < h.end
  }

  predicate Apart(out: seq<Hit>) {
    forall a, b :: a in out && b in out && a != b ==> !Overlaps(a, b)
  }

  // Hit j is kept or overlaps an earlier one that is.
  predicate YieldsToEarlier(raw: seq<Hit>, out: seq<Hit>, j: nat)
    requires j < |raw|
  {
    raw[j] in out || OverlapsSomeBefore(raw, out, j)
  }

  predicate OverlapsSomeBefore(raw: seq<Hit>, out: seq<Hit>, j: nat)
    requires j < |raw|
  {
    exists i :: 0 <= i < j && raw[i] in out && Overlaps(raw[j], raw[i])
  }

  lemma {:induction false} FirstComeIs(raw: seq<Hit>)
    ensures Apart(FirstCome(raw)) && forall h :: h in FirstCome(raw) ==> h in raw
    ensures forall j: nat :: j < |raw| ==> YieldsToEarlier(raw, FirstCome(raw), j)
  {
    if raw != [] {
      var n := |raw| - 1;
      var front, out := raw[..n], FirstCome(raw);
      FirstComeIs(front);
      assert raw == front + [raw[n]];
      forall j: nat | j < |raw| ensures YieldsToEarlier(raw, out, j) {
        if j < n {
          assert YieldsToEarlier(front, FirstCome(front), j);
          if i :| 0 <= i < j && front[i] in FirstCome(front) && Overlaps(front[j], front[i]) {
            assert raw[i] in out;
          }
        } else if k :| k in FirstCome(front) && Overlaps(raw[n], k) {
          var i :| 0 <= i < n && front[i] == k;
          assert raw[i] in out;
        }
      }
    }
  }

  // What the documented rule keeps is the first hit of its span: a later one overlaps whatever dropped it.
  lemma {:induction false} FirstComeAreFirst(raw: seq<Hit>, h: Hit, g: Hit, i: nat)
    requires NonEmpty(raw) && h in FirstCome(raw) && FirstOfSpan(raw, h.start, h.end) == Some(g)
    requires i < |raw| && raw[i] == g
    ensures h == g
    decreases i
  {
    hide FirstCome, FirstOfSpan, Apart;
    FirstOfSpanIs(raw, h, g);
    FirstComeIs(raw);
    assert YieldsToEarlier(raw, FirstCome(raw), i);
    if g in FirstCome(raw) {
      ApartMembers(FirstCome(raw), h, g);
    } else {
      var k: nat :| k < i && raw[k] in FirstCome(raw) && Overlaps(g, raw[k]);
      ApartMembers(FirstCome(raw), h, raw[k]);
      var l := FirstOfSpanAt(raw, g, k);
      FirstComeAreFirst(raw, h, g, l);
    }
  }

  lemma ApartMembers(out: seq<Hit>, a: Hit, b: Hit)
    requires Apart(out) && a in out && b in out && Overlaps(a, b)
    ensures a == b
  {}

  lemma {:induction false} FirstOfSpanIs(hits: seq<Hit>, h: Hit, g: Hit)
    requires FirstOfSpan(hits, h.start, h.end) == Some(g)
    ensures g in hits && (g.start, g.end) == (h.start, h.end)
  {
    if FirstOfSpan(hits[..|hits| - 1], h.start, h.end).Some? {
      FirstOfSpanIs(hits[..|hits| - 1], h, g);
    }
  }

  // Kept hits are apart, first of their span, and stand for every hit.
  predicate Stands(raw: seq<Hit>, out: seq<Hit>) {
    Apart(out)
    && (forall h :: h in out ==> h in raw && FirstOfSpan(raw, h.start, h.end) == Some(h))
    && forall h :: h in raw ==> Represented(out, h)
  }

  // By position there is only one way to keep hits like that.
  lemma {:induction false} OnlyOneWay(raw: seq<Hit>, a: seq<Hit>, b: seq<Hit>, h: Hit, bound: nat)
    requires Stands(raw, a) && Stands(raw, b) && (forall k :: k in raw ==> k.end <= bound)
    requires h in raw && h in a
    ensures h in b
    decreases h.start, bound - h.end
  {
    hide FirstOfSpan, Apart;
    assert Represented(b, h);
    var k :| k in b && Overlaps(h, k) && NotAfter(k, h);
    if k.start == h.start && k.end == h.end {
      assert k == h;
    } else {
      OnlyOneWay(raw, b, a, k, bound);
      ApartMembers(a, h, k);
    }
  }

  lemma {:induction false} EndsAreBounded(raw: seq<Hit>) returns (bound: nat)
    ensures forall h :: h in raw ==> h.end <= bound
  {
    bound := 0;
    for i := 0 to |raw|
      invariant forall j :: 0 <= j < i ==> raw[j].end <= bound
    {
      bound := if raw[i].end <= bound then bound else raw[i].end;
    }
  }

  lemma SweptAreApart(raw: seq<Hit>)
    requires NonEmpty(raw)
    ensures var out := Kept(SortHits(raw));
      && Apart(out) && (forall h :: h in out ==> h in raw)
      && (forall h :: h in raw ==> Represented(out, h))
      && (forall h :: h in out ==> FirstOfSpan(raw, h.start, h.end) == Some(h))
  {
    hide Represented, Ordered, FirstOfSpan, Kept, SortHits;
    SortSorts(raw);
    var sorted := SortHits(raw);
    KeptIsSwept(sorted);
    KeptAreFirst(sorted);
    assert sorted[..|sorted|] == sorted;
    var out := Kept(sorted);
    forall a, b | a in out && b in out && a != b ensures !Overlaps(a, b) {
      var i :| 0 <= i < |out| && out[i] == a;
      var j :| 0 <= j < |out| && out[j] == b;
      assert i < j || j < i;
    }
    forall h | h in raw ensures Represented(out, h) {
      var i :| 0 <= i < |sorted| && sorted[i] == h;
      assert Represented(out, sorted[i]);
    }
    forall h | h in out ensures FirstOfSpan(raw, h.start, h.end) == Some(h) {
      SortIsStable(raw, h.start, h.end);
    }
  }

  /**
   The sweep by position keeps what the documented rule keeps exactly if no hit that the rule drops comes
   before all the kept ones it overlaps: each hit overlaps one the rule keeps that starts earlier or, from the
   same start, is no shorter.
   */
  lemma FirstMatchWinsExactly(raw: seq<Hit>)
    requires NonEmpty(raw)
    ensures (forall h :: h in Kept(SortHits(raw)) <==> h in FirstCome(raw))
            <==> forall h :: h in raw ==> Represented(FirstCome(raw), h)
  {
    hide Kept, SortHits, FirstCome, Apart, Represented, FirstOfSpan, YieldsToEarlier;
    var out, first := Kept(SortHits(raw)), FirstCome(raw);
    SweptAreApart(raw);
    FirstComeIs(raw);
    if forall h :: h in out <==> h in first {
      forall h | h in raw ensures Represented(first, h) {
        SameMembersRepresent(out, first, h);
      }
    }
    if forall h :: h in raw ==> Represented(first, h) {
      FirstComeStands(raw);
      var bound := EndsAreBounded(raw);
      forall h ensures h in out <==> h in first {
        if h in out {
          OnlyOneWay(raw, out, first, h, bound);
        }
        if h in first {
          OnlyOneWay(raw, first, out, h, bound);
        }
      }
    }
  }

  lemma SameMembersRepresent(a: seq<Hit>, b: seq<Hit>, h: Hit)
    requires Represented(a, h) && forall k :: k in a <==> k in b
    ensures Represented(b, h)
  {
    var k :| k in a && Overlaps(h, k) && NotAfter(k, h);
    assert k in b;
  }

  lemma FirstComeStands(raw: seq<Hit>)
    requires NonEmpty(raw) && forall h :: h in raw ==> Represented(FirstCome(raw), h)
    ensures Stands(raw, FirstCome(raw))
  {
    hide FirstCome, Apart, Represented, FirstOfSpan, YieldsToEarlier;
    var first := FirstCome(raw);
    FirstComeIs(raw);
    forall h | h in first ensures FirstOfSpan(raw, h.start, h.end) == Some(h) {
      var j :| 0 <= j < |raw| && raw[j] == h;
      SpanIsFound(raw, j);
      var g := FirstOfSpan(raw, h.start, h.end).value;
      var i := FirstOfSpanAt(raw, g, j);
      FirstComeAreFirst(raw, h, g, i);
    }
  }

  // The first hit of a span stands no later than any other of that span.
  lemma {:induction false} FirstOfSpanAt(hits: seq<Hit>, g: Hit, j: nat) returns (i: nat)
    requires j < |hits| && FirstOfSpan(hits, hits[j].start, hits[j].end) == Some(g)
    ensures i <= j && hits[i] == g
  {
    var last := |hits| - 1;
    var front := hits[..last];
    if FirstOfSpan(front, hits[j].start, hits[j].end).None? {
      if j < last {
        SpanIsFound(front, j);
      }
      i := last;
    } else if j < last {
      i := FirstOfSpanAt(front, g, j);
    } else {
      var k := SomeOfSpan(front, hits[j].start, hits[j].end);
      i := FirstOfSpanAt(front, g, k);
    }
  }

  lemma {:induction false} SomeOfSpan(hits: seq<Hit>, start: nat, end: nat) returns (i: nat)
    requires FirstOfSpan(hits, start, end).Some?
    ensures i < |hits| && (hits[i].start, hits[i].end) == (start, end)
  {
    var last := |hits| - 1;
    if FirstOfSpan(hits[..last], start, end).Some? {
      i := SomeOfSpan(hits[..last], start, end);
    } else {
      i := last;
    }
  }

  lemma {:induction false} SpanIsFound(hits: seq<Hit>, j: nat)
    requires j < |hits|
    ensures FirstOfSpan(hits, hits[j].start, hits[j].end).Some?
  {
    if j < |hits| - 1 {
      SpanIsFound(hits[..|hits| - 1], j);
    }
  }

  // It is enough that of two overlapping hits the one found first also comes first by position.
  lemma OrderedOverlapsMeanFirstMatchWins(raw: seq<Hit>)
    requires NonEmpty(raw)
    requires forall i, j :: 0 <= i < j < |raw| && Overlaps(raw[i], raw[j]) ==> NotAfter(raw[i], raw[j])
    ensures forall h :: h in Kept(SortHits(raw)) <==> h in FirstCome(raw)
  {
    hide Kept, SortHits, FirstCome, Apart;
    FirstComeIs(raw);
    forall h | h in raw ensures Represented(FirstCome(raw), h) {
      var j: nat :| j < |raw| && raw[j] == h;
      assert YieldsToEarlier(raw, FirstCome(raw), j);
      if h !in FirstCome(raw) {
        var i: nat :| i < j && raw[i] in FirstCome(raw) && Overlaps(h, raw[i]);
        assert Overlaps(raw[i], raw[j]);
      }
    }
    FirstMatchWinsExactly(raw);
  }

  /**
   And for two overlapping hits that overlap nothing else it is necessary: the one found first wins exactly if
   it starts earlier or, from the same start, is no shorter.
   */
  lemma PairDecides(raw: seq<Hit>, i: nat, j: nat)
    requires NonEmpty(raw) && i < j < |raw| && Overlaps(raw[i], raw[j]) && raw[j] !in raw[..j]
    requires forall h :: h in raw && (Overlaps(h, raw[i]) || Overlaps(h, raw[j])) ==> h == raw[i] || h == raw[j]
    ensures raw[i] in FirstCome(raw) && raw[j] !in FirstCome(raw)
    ensures raw[i] in Kept(SortHits(raw)) <==> NotAfter(raw[i], raw[j])
    ensures raw[j] in Kept(SortHits(raw)) <==> !NotAfter(raw[i], raw[j])
  {
    hide Kept, SortHits, FirstCome, FirstOfSpan;
    var a, b, out := raw[i], raw[j], Kept(SortHits(raw));
    forall k | 0 <= k < j ensures raw[k] != b {
      assert raw[..j][k] == raw[k];
    }
    SweptAreApart(raw);
    FirstComeIs(raw);
    assert YieldsToEarlier(raw, FirstCome(raw), i);
    assert Represented(out, a) && Represented(out, b);
    if b in out && (a.start, a.end) == (b.start, b.end) {
      var k := FirstOfSpanAt(raw, b, i);
    }
  }

  /**
   An input on which the earlier detector loses: the address starts behind the country code, so the phone
   number, found later, starts earlier. No other detector finds anything in this text.
   */
  lemma LaterDetectorWins()
    ensures var text := "+1 555-123-4567@x.com";
            var detectors := [Detector("email", [(3, 21)]), Detector("phone", [(0, 15)])];
      && SpansFit(text, detectors)
      && FirstCome(RawHits(text, detectors)) == [Hit("email", 3, 21)]
      && Hit("phone", 0, 15) in Detected(text, detectors) && Hit("email", 3, 21) !in Detected(text, detectors)
  {
    hide Kept, SortHits, RawHits, Accept, FirstCome, Represented, FirstOfSpan, LuhnValid, SpansFit;
    var text := "+1 555-123-4567@x.com";
    TwoRawHits(text, Detector("email", [(3, 21)]), Detector("phone", [(0, 15)]), (3, 21), (0, 15));
    TwoHits(Hit("email", 3, 21), Hit("phone", 0, 15));
  }

  lemma TwoRawHits(text: string, a: Detector, b: Detector, x: (nat, nat), y: (nat, nat))
    requires a.spans == [x] && x.0 < x.1 <= |text| && a.kind != CREDIT_CARD
    requires b.spans == [y] && y.0 < y.1 <= |text| && b.kind != CREDIT_CARD
    ensures SpansFit(text, [a, b]) && RawHits(text, [a, b]) == [Hit(a.kind, x.0, x.1), Hit(b.kind, y.0, y.1)]
  {
    hide RawHits, Accept;
    NoRawHits(text);
    assert [] + [a] == [a] && [a] + [b] == [a, b];
    RawOfOne(text, [], a, x);
    RawOfOne(text, [a], b, y);
  }

  lemma NoRawHits(text: string)
    ensures RawHits(text, []) == []
  {}

  lemma TwoHits(a: Hit, b: Hit)
    requires a.start < a.end && b.start < b.end && Overlaps(a, b) && b.start < a.start
    ensures FirstCome([a, b]) == [a] && b in Kept(SortHits([a, b])) && a !in Kept(SortHits([a, b]))
  {
    hide Kept, SortHits, FirstCome;
    var raw := [a, b];
    assert raw[..1] == [a];
    PairDecides(raw, 0, 1);
    FirstOfTwo(raw);
  }

  lemma FirstOfTwo(raw: seq<Hit>)
    requires |raw| == 2 && Overlaps(raw[0], raw[1])
    ensures FirstCome(raw) == [raw[0]]
  {
    assert FirstCome(raw[..1][..0]) == [];
    assert FirstCome(raw[..1]) == [raw[0]];
    assert Overlaps(raw[1], raw[0]) && raw[0] in [raw[0]];
  }

  lemma RawOfOne(text: string, before: seq<Detector>, d: Detector, span: (nat, nat))
    requires SpansFit(text, before + [d]) && SpansFit(text, before)
    requires d.spans == [span] && span.0 < span.1 <= |text| && d.kind != CREDIT_CARD
    ensures RawHits(text, before + [d]) == RawHits(text, before) + [Hit(d.kind, span.0, span.1)]
  {
    assert (before + [d])[..|before|] == before;
    assert [span][..0] == [];
    assert Accept(text, d.kind, [span]) == Accept(text, d.kind, []) + [Hit(d.kind, span.0, span.1)];
  }

  /**
   detect: the result is sorted and disjoint, consists of raw hits, and every raw hit overlaps a returned
   one that starts no later and, if it starts at the same place, is at least as long.
   */
  method Detect(text: string, detectors: seq<Detector>) returns (out: seq<Hit>)
    requires SpansFit(text, detectors)
    ensures Disjoint(out) && forall h :: h in out ==> IsRawHit(text, detectors, h) && h.start < h.end <= |text|
    ensures forall h :: IsRawHit(text, detectors, h) ==> Represented(out, h)
    ensures out == Detected(text, detectors)
  {
    hide IsRawHit, RawHits, Ordered, Disjoint, SpansFit, Represented, Kept, SortHits;
    var raw := CollectRaw(text, detectors);
    var sorted := SortHits(raw);
    SortSorts(raw);
    forall h: Hit
      ensures h in raw <==> IsRawHit(text, detectors, h)
      ensures h in raw ==> h.start < h.end <= |text|
    {
      RawHitMembers(text, detectors, h);
    }
    out := Sweep(sorted);
  }

  // has_pii stops at the first accepted match.
  method HasPii(text: string, detectors: seq<Detector>) returns (found: bool)
    requires SpansFit(text, detectors)
    ensures found <==> exists h :: IsRawHit(text, detectors, h)
  {
    for d := 0 to |detectors|
      invariant RawHits(text, detectors[..d]) == []
    {
      assert detectors[..d + 1][..d] == detectors[..d];
      assert detectors[d] in detectors;
      var kind, spans := detectors[d].kind, detectors[d].spans;
      for s := 0 to |spans|
        invariant Accept(text, kind, spans[..s]) == []
      {
        assert spans[..s + 1][..s] == spans[..s];
        assert spans[s] in spans;
        if Accepted(text, kind, spans[s]) {
          assert IsRawHit(text, detectors, Hit(kind, spans[s].0, spans[s].1));
          return true;
        }
      }
      assert spans[..|spans|] == spans;
    }
    assert detectors[..|detectors|] == detectors;
    forall h: Hit
      ensures !IsRawHit(text, detectors, h)
    {
      RawHitMembers(text, detectors, h);
    }
    found := false;
  }

  // has_pii holds exactly when detect returns something.
  lemma HasPiiMeansDetected(text: string, detectors: seq<Detector>, out: seq<Hit>)
    requires SpansFit(text, detectors)
    requires forall h :: h in out ==> IsRawHit(text, detectors, h)
    requires forall h :: IsRawHit(text, detectors, h) ==> Represented(out, h)
    ensures (exists h :: IsRawHit(text, detectors, h)) <==> out != []
  {
    if out != [] {
      assert out[0] in out;
    }
  }

  // ---------- redaction ----------

  // Disjoint matches in the text from the cursor on.
  predicate Fits(text: string, matches: seq<Hit>, cursor: nat) {
    cursor <= |text| && Disjoint(matches) && forall h :: h in matches ==> cursor <= h.start < h.end <= |text|
  }

  lemma FitsRest(text: string, matches: seq<Hit>, cursor: nat)
    requires Fits(text, matches, cursor) && matches != []
    ensures cursor <= matches[0].start < matches[0].end <= |text| && Fits(text, matches[1..], matches[0].end)
  {
    var m, rest := matches[0], matches[1..];
    assert m in matches;
    forall i | 0 <= i < |rest|
      ensures m.end <= rest[i].start < rest[i].end <= |text|
    {
      assert rest[i] == matches[i + 1] && rest[i] in matches;
    }
  }

  // The text from the cursor on, with each match replaced by its marker.
  function Redacted(text: string, matches: seq<Hit>, cursor: nat, marker: string -> string): string
    requires Fits(text, matches, cursor)
    decreases |matches|
  {
    if matches == [] then text[cursor..] else
      FitsRest(text, matches, cursor);
      text[cursor..matches[0].start] + marker(matches[0].kind) + Redacted(text, matches[1..], matches[0].end, marker)
  }

  lemma RedactOne(text: string, matches: seq<Hit>, i: nat, cursor: nat, marker: string -> string, out: string)
    requires i < |matches| && Fits(text, matches[i..], cursor)
    ensures var m := matches[i];
      && cursor <= m.start < m.end <= |text| && Fits(text, matches[i + 1..], m.end)
      && out + Redacted(text, matches[i..], cursor, marker)
         == out + text[cursor..m.start] + marker(m.kind) + Redacted(text, matches[i + 1..], m.end, marker)
  {
    hide Fits;
    FitsRest(text, matches[i..], cursor);
    assert matches[i..][0] == matches[i] && matches[i..][1..] == matches[i + 1..];
  }

  method RedactPii(text: string, detectors: seq<Detector>, marker: string -> string) returns (out: string)
    requires SpansFit(text, detectors)
    ensures Fits(text, Detected(text, detectors), 0)
    ensures out == Redacted(text, Detected(text, detectors), 0, marker)
  {
    hide Disjoint, Represented, IsRawHit, SpansFit, Detected;
    var ms := Detect(text, detectors);
    if ms == [] {
      assert text[0..] == text;
      return text;
    }
    out := "";
    var cursor: nat := 0;
    assert ms[0..] == ms;
    for i := 0 to |ms|
      invariant Fits(text, ms[i..], cursor)
      invariant out + Redacted(text, ms[i..], cursor, marker) == Redacted(text, ms, 0, marker)
    {
      RedactOne(text, ms, i, cursor, marker, out);
      out := out + text[cursor..ms[i].start];
      out := out + marker(ms[i].kind);
      cursor := ms[i].end;
    }
    out := out + text[cursor..];
  }

  predicate Covered(matches: seq<Hit>, p: nat) {
    exists h :: h in matches && h.start <= p < h.end
  }

  // The characters from the given position on that no match covers.
  function Uncovered(text: string, matches: seq<Hit>, from: nat): string
    requires from <= |text|
    decreases |text| - from
  {
    if from == |text| then "" else
      (if Covered(matches, from) then "" else [text[from]]) + Uncovered(text, matches, from + 1)
  }

  lemma SplitFirst(text: string, from: nat, to: nat, rest: string)
    requires from < to <= |text|
    ensures text[from..to] + rest == [text[from]] + (text[from + 1..to] + rest)
  {}

  lemma {:induction false} UncoveredRun(text: string, matches: seq<Hit>, from: nat, to: nat)
    requires from <= to <= |text| && forall p: nat :: from <= p < to ==> !Covered(matches, p)
    ensures Uncovered(text, matches, from) == text[from..to] + Uncovered(text, matches, to)
    decreases |text| - from
  {
    hide Covered;
    if from == to {
      assert text[from..to] == "";
    } else {
      UncoveredRun(text, matches, from + 1, to);
      SplitFirst(text, from, to, Uncovered(text, matches, to));
    }
  }

  lemma {:induction false} CoveredRun(text: string, matches: seq<Hit>, from: nat, to: nat)
    requires from <= to <= |text| && forall p: nat :: from <= p < to ==> Covered(matches, p)
    ensures Uncovered(text, matches, from) == Uncovered(text, matches, to)
    decreases |text| - from
  {
    hide Covered;
    if from < to {
      CoveredRun(text, matches, from + 1, to);
    }
  }

  lemma {:induction false} SameCover(text: string, a: seq<Hit>, b: seq<Hit>, from: nat)
    requires from <= |text| && forall p: nat :: from <= p < |text| ==> (Covered(a, p) <==> Covered(b, p))
    ensures Uncovered(text, a, from) == Uncovered(text, b, from)
    decreases |text| - from
  {
    hide Covered;
    if from < |text| {
      assert Covered(a, from) <==> Covered(b, from);
      SameCover(text, a, b, from + 1);
    }
  }

  // The runs of text in front of, between and behind the matches.
  function Gaps(text: string, matches: seq<Hit>, cursor: nat): (gaps: seq<string>)
    requires Fits(text, matches, cursor)
    ensures |gaps| == |matches| + 1
    decreases |matches|
  {
    if matches == [] then [text[cursor..]] else
      FitsRest(text, matches, cursor);
      [text[cursor..matches[0].start]] + Gaps(text, matches[1..], matches[0].end)
  }

  // Gap, marker, gap, marker, gap.
  function Woven(gaps: seq<string>, markers: seq<string>): string
    requires |gaps| == |markers| + 1
  {
    if markers == [] then gaps[0] else gaps[0] + markers[0] + Woven(gaps[1..], markers[1..])
  }

  function Markers(matches: seq<Hit>, marker: string -> string): seq<string> {
    seq(|matches|, i requires 0 <= i < |matches| => marker(matches[i].kind))
  }

  /**
   Redaction keeps all other text and adds nothing but the markers: a redacted text is its gaps with one marker
   between two of them, and the gaps together are exactly the characters outside the matches, in order.
   */
  lemma {:induction false} RedactionKeepsTheRest(text: string, matches: seq<Hit>, cursor: nat, marker: string -> string)
    requires Fits(text, matches, cursor)
    ensures Redacted(text, matches, cursor, marker) == Woven(Gaps(text, matches, cursor), Markers(matches, marker))
    ensures Concat(Gaps(text, matches, cursor)) == Uncovered(text, matches, cursor)
    decreases |matches|
  {
    hide Fits, Covered;
    if matches == [] {
      FitsCursor(text, matches, cursor);
      NothingCovers(text, cursor);
    } else {
      var m, rest := matches[0], matches[1..];
      FitsRest(text, matches, cursor);
      RedactionKeepsTheRest(text, rest, m.end, marker);
      assert Markers(matches, marker)[1..] == Markers(rest, marker);
      assert Gaps(text, matches, cursor)[1..] == Gaps(text, rest, m.end);
      UncoveredFirst(text, matches, cursor);
    }
  }

  lemma FitsCursor(text: string, matches: seq<Hit>, cursor: nat)
    requires Fits(text, matches, cursor)
    ensures cursor <= |text|
  {}

  lemma NothingCovers(text: string, cursor: nat)
    requires cursor <= |text|
    ensures Uncovered(text, [], cursor) == text[cursor..] && Concat([text[cursor..]]) == text[cursor..]
  {
    UncoveredRun(text, [], cursor, |text|);
    assert text[cursor..|text|] == text[cursor..];
    assert [text[cursor..]][1..] == [];
  }

  lemma UncoveredFirst(text: string, matches: seq<Hit>, cursor: nat)
    requires Fits(text, matches, cursor) && matches != []
    ensures var m := matches[0];
      cursor <= m.start <= m.end <= |text|
      && Uncovered(text, matches, cursor) == text[cursor..m.start] + Uncovered(text, matches[1..], m.end)
  {
    hide Uncovered;
    FitsRest(text, matches, cursor);
    var m, rest := matches[0], matches[1..];
    assert matches == [m] + rest;
    forall p: nat | cursor <= p < m.start ensures !Covered(matches, p) {}
    forall p: nat | m.start <= p < m.end ensures Covered(matches, p) {
      assert m in matches;
    }
    forall p: nat | m.end <= p < |text| ensures Covered(matches, p) <==> Covered(rest, p) {}
    UncoveredRun(text, matches, cursor, m.start);
    CoveredRun(text, matches, m.start, m.end);
    SameCover(text, matches, rest, m.end);
  }
}
