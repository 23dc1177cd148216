/** The council's ballots: parsing (sera/council/rank.py), agreement (confidence.py) and counting (chairman.py). */
module Council {
  import opened Sequences
  import opened Wrappers
  import opened StringOrder

  function Labels(xs: seq<string>): set<string> {
    set x | x in xs
  }

  predicate IsPermutation(ranking: seq<string>, labels: set<string>) {
    NoRepeats(ranking) && Labels(ranking) == labels
  }

  // ---------- parsing ----------

  datatype RankingResult = RankingResult(
    ranking: seq<string>, isComplete: bool, missing: set<string>, strategy: Option<nat>)

  // The matches that are labels, in upper case, each at its first occurrence.
  function FirstOccurrences(found: seq<string>, labels: set<string>, upper: string -> string): seq<string> {
    if found == [] then [] else
      var before := FirstOccurrences(found[..|found| - 1], labels, upper);
      var name := upper(found[|found| - 1]);
      if name in labels && name !in before then before + [name] else before
  }

  method ExtractOrdered(found: seq<string>, labels: set<string>, upper: string -> string) returns (ordered: seq<string>)
    ensures ordered == FirstOccurrences(found, labels, upper)
    ensures NoRepeats(ordered) && Labels(ordered) == labels * Named(found, upper) && InOrderFound(found, upper, ordered)
  {
    FirstOccurrencesAre(found, labels, upper);
    FirstOccurrencesInOrder(found, labels, upper);
    var seen: set<string> := {};
    ordered := [];
    for i := 0 to |found|
      invariant ordered == FirstOccurrences(found[..i], labels, upper) && seen == Labels(ordered)
    {
      assert found[..i + 1][..i] == found[..i];
      var name := upper(found[i]);
      if name in labels && name !in seen {
        seen := seen + {name};
        ordered := ordered + [name];
      }
    }
    assert found[..|found|] == found;
  }

  lemma {:induction false} FirstOccurrencesAre(found: seq<string>, labels: set<string>, upper: string -> string)
    ensures var r := FirstOccurrences(found, labels, upper);
      NoRepeats(r) && forall x :: x in r <==> x in labels && x in Named(found, upper)
  {
    if found != [] {
      var front, last := found[..|found| - 1], found[|found| - 1];
      FirstOccurrencesAre(front, labels, upper);
      assert found == front + [last];
      assert Named(found, upper) == Named(front, upper) + {upper(last)};
    }
  }

  // Of two labels in r, the one placed first is found before the other one is.
  predicate FoundBefore(found: seq<string>, upper: string -> string, a: string, b: string) {
    exists k :: 0 <= k < |found| && upper(found[k]) == a && forall m :: 0 <= m <= k ==> upper(found[m]) != b
  }

  predicate InOrderFound(found: seq<string>, upper: string -> string, r: seq<string>) {
    forall i, j :: 0 <= i < j < |r| ==> FoundBefore(found, upper, r[i], r[j])
  }

  lemma {:induction false} FirstOccurrencesInOrder(found: seq<string>, labels: set<string>, upper: string -> string)
    ensures InOrderFound(found, upper, FirstOccurrences(found, labels, upper))
  {
    if found != [] {
      var front, last := found[..|found| - 1], found[|found| - 1];
      var before, r := FirstOccurrences(front, labels, upper), FirstOccurrences(found, labels, upper);
      FirstOccurrencesInOrder(front, labels, upper);
      FirstOccurrencesAre(front, labels, upper);
      forall i, j | 0 <= i < j < |r| ensures FoundBefore(found, upper, r[i], r[j]) {
        if j < |before| {
          FoundBeforeInLonger(front, last, upper, r[i], r[j]);
        } else {
          assert r[i] in before && r[j] == upper(last) && r[j] in labels && r[j] !in before;
          NewIsFoundLast(front, last, upper, r[i], r[j]);
        }
      }
    }
  }

  lemma FoundBeforeInLonger(front: seq<string>, last: string, upper: string -> string, a: string, b: string)
    requires FoundBefore(front, upper, a, b)
    ensures FoundBefore(front + [last], upper, a, b)
  {
    var k :| 0 <= k < |front| && upper(front[k]) == a && forall m :: 0 <= m <= k ==> upper(front[m]) != b;
    assert forall m :: 0 <= m <= k ==> (front + [last])[m] == front[m];
  }

  lemma NewIsFoundLast(front: seq<string>, last: string, upper: string -> string, a: string, b: string)
    requires a in Named(front, upper) && b !in Named(front, upper)
    ensures FoundBefore(front + [last], upper, a, b)
  {
    var name :| name in front && upper(name) == a;
    var k :| 0 <= k < |front| && front[k] == name;
    forall m | 0 <= m <= k ensures (front + [last])[m] == front[m] && upper(front[m]) != b {
      assert front[m] in front;
    }
  }

  // The labels that some match names.
  function Named(found: seq<string>, upper: string -> string): set<string> {
    set m | m in found :: upper(m)
  }

  /**
   parse_ranking, given what each strategy's pattern found: the first strategy that names every label wins,
   and then the ranking is the permutation of the labels in the order in which it finds them.
   */
  method ParseRanking(foundBy: seq<seq<string>>, validLabels: seq<string>, upper: string -> string)
    returns (result: RankingResult)
    ensures var labels := Named(validLabels, upper);
      && (result.isComplete <==> exists s :: 0 <= s < |foundBy| && labels <= Named(foundBy[s], upper))
      && (result.isComplete ==>
            && IsPermutation(result.ranking, labels) && result.missing == {}
            && result.strategy.Some? && result.strategy.value < |foundBy|
            && result.ranking == FirstOccurrences(foundBy[result.strategy.value], labels, upper)
            && InOrderFound(foundBy[result.strategy.value], upper, result.ranking)
            && forall s :: 0 <= s < result.strategy.value ==> !(labels <= Named(foundBy[s], upper)))
      && (!result.isComplete ==> result.ranking == [] && result.missing == labels && result.strategy == None)
  {
    var labels := set l | l in validLabels :: upper(l);
    for s := 0 to |foundBy|
      invariant forall t :: 0 <= t < s ==> !(labels <= Named(foundBy[t], upper))
    {
      var ordered := ExtractOrdered(foundBy[s], labels, upper);
      FirstOccurrencesAre(foundBy[s], labels, upper);
      if Labels(ordered) == labels {
        return RankingResult(ordered, true, {}, Some(s));
      }
    }
    return RankingResult([], false, labels, None);
  }

  // ---------- positions ----------

  function IndexOf(ranking: seq<string>, name: string): (i: nat)
    requires name in ranking
    ensures i < |ranking| && ranking[i] == name
  {
    if ranking[0] == name then 0 else 1 + IndexOf(ranking[1..], name)
  }

  lemma IndexIs(ranking: seq<string>, i: nat)
    requires NoRepeats(ranking) && i < |ranking|
    ensures IndexOf(ranking, ranking[i]) == i
  {}

  predicate Above(ranking: seq<string>, a: string, b: string) {
    a in ranking && b in ranking && IndexOf(ranking, a) < IndexOf(ranking, b)
  }

  // The pairs of labels, the first above the second.
  function Pairs(r: seq<string>): set<(string, string)> {
    set p | p in Product(r) && Above(r, p.0, p.1)
  }

  function Product(r: seq<string>): set<(string, string)> {
    set a, b | a in r && b in r :: (a, b)
  }

  // The pairs of r1 that r2 puts in the same order, and those it puts in the opposite order.
  function Agreements(r1: seq<string>, r2: seq<string>): set<(string, string)> {
    set p | p in Pairs(r1) && Above(r2, p.0, p.1)
  }

  function Conflicts(r1: seq<string>, r2: seq<string>): set<(string, string)> {
    set p | p in Pairs(r1) && Above(r2, p.1, p.0)
  }

  lemma InPairs(r: seq<string>)
    ensures forall p :: p in Pairs(r) <==> Above(r, p.0, p.1)
  {
    forall p: (string, string) | Above(r, p.0, p.1)
      ensures p in Product(r)
    {
      assert p == (p.0, p.1);
    }
  }

  // n(n-1)/2
  function PairCount(n: nat): nat {
    if n == 0 then 0 else PairCount(n - 1) + n - 1
  }

  lemma {:induction false} PairCountIs(n: nat)
    ensures PairCount(n) == n * (n - 1) / 2
  {
    if n > 0 {
      PairCountIs(n - 1);
      assert n * (n - 1) == (n - 1) * (n - 2) + 2 * (n - 1);
    }
  }

  function EndingIn(front: seq<string>, last: string): set<(string, string)> {
    set a | a in front :: (a, last)
  }

  lemma {:induction false} PairsWithLast(front: seq<string>, last: string)
    requires NoRepeats(front)
    ensures |EndingIn(front, last)| == |front|
  {
    hide EndingIn;
    if front != [] {
      var rest, x := front[..|front| - 1], front[|front| - 1];
      PairsWithLast(rest, last);
      assert front == rest + [x] && x !in rest;
      EndingOneMore(rest, x, last);
    } else {
      NothingEnds(last);
    }
  }

  lemma EndingOneMore(rest: seq<string>, x: string, last: string)
    requires x !in rest
    ensures EndingIn(rest + [x], last) == EndingIn(rest, last) + {(x, last)} && (x, last) !in EndingIn(rest, last)
  {}

  lemma NothingEnds(last: string)
    ensures EndingIn([], last) == {}
  {}

  lemma AboveInFront(front: seq<string>, last: string, a: string, b: string)
    requires NoRepeats(front + [last])
    ensures Above(front + [last], a, b) <==> Above(front, a, b) || (a in front && b == last)
  {
    var r := front + [last];
    if a in front {
      IndexIs(r, IndexOf(front, a));
    }
    if b in front {
      IndexIs(r, IndexOf(front, b));
    }
    IndexIs(r, |front|);
  }

  lemma PairsOfOneMore(front: seq<string>, last: string)
    requires NoRepeats(front + [last])
    ensures Pairs(front + [last]) == Pairs(front) + EndingIn(front, last)
    ensures Pairs(front) !! EndingIn(front, last)
  {
    InPairs(front);
    InPairs(front + [last]);
    InEndingIn(front, last);
    assert last !in front by {
      assert (front + [last])[|front|] == last;
      assert forall i :: 0 <= i < |front| ==> (front + [last])[i] == front[i];
    }
    hide Pairs, Above, EndingIn;
    forall p: (string, string)
      ensures Above(front + [last], p.0, p.1) <==> Above(front, p.0, p.1) || p in EndingIn(front, last)
      ensures Above(front, p.0, p.1) ==> p !in EndingIn(front, last)
    {
      AboveInFront(front, last, p.0, p.1);
      AboveIsIn(front, p.0, p.1);
    }
  }

  lemma InEndingIn(front: seq<string>, last: string)
    ensures forall p :: p in EndingIn(front, last) <==> p.0 in front && p.1 == last
  {
    forall p: (string, string) | p.0 in front && p.1 == last
      ensures p in EndingIn(front, last)
    {
      assert p == (p.0, last);
    }
  }

  lemma AboveIsIn(r: seq<string>, a: string, b: string)
    ensures Above(r, a, b) ==> a in r && b in r
  {}

  lemma {:induction false} PairsAreCounted(r: seq<string>)
    requires NoRepeats(r)
    ensures |Pairs(r)| == PairCount(|r|)
  {
    hide Pairs, EndingIn;
    if r == [] {
      NoPairs();
    } else {
      var front, last := r[..|r| - 1], r[|r| - 1];
      assert r == front + [last];
      PairsAreCounted(front);
      PairsOfOneMore(front, last);
      PairsWithLast(front, last);
    }
  }

  lemma NoPairs()
    ensures Pairs([]) == {}
  {}

  // ---------- Kendall's tau ----------

  function Tau(r1: seq<string>, r2: seq<string>): real {
    if |r1| < 2 then 1.0
    else (|Agreements(r1, r2)| - |Conflicts(r1, r2)|) as real / PairCount(|r1|) as real
  }

  lemma PairCountPositive(n: nat)
    requires n >= 2
    ensures PairCount(n) > 0
  {}

  // Every pair is an agreement or a conflict.
  lemma AgreeOrConflict(r1: seq<string>, r2: seq<string>)
    requires NoRepeats(r1) && NoRepeats(r2) && Labels(r1) == Labels(r2)
    ensures |Agreements(r1, r2)| + |Conflicts(r1, r2)| == PairCount(|r1|)
  {
    PairsAreCounted(r1);
    InPairs(r1);
    forall p | p in Pairs(r1)
      ensures Above(r2, p.0, p.1) <==> !Above(r2, p.1, p.0)
    {
      assert p.0 in Labels(r2) && p.1 in Labels(r2);
    }
    hide Above;
    assert Pairs(r1) == Agreements(r1, r2) + Conflicts(r1, r2);
    assert Agreements(r1, r2) !! Conflicts(r1, r2);
  }

  lemma AgreementsSymmetric(r1: seq<string>, r2: seq<string>)
    ensures Agreements(r1, r2) == Agreements(r2, r1)
  {
    InPairs(r1);
    InPairs(r2);
    hide Above, Pairs;
  }

  lemma SameLength(r1: seq<string>, r2: seq<string>)
    requires NoRepeats(r1) && NoRepeats(r2) && Labels(r1) == Labels(r2)
    ensures |r1| == |r2|
  {
    LabelCount(r1);
    LabelCount(r2);
  }

  lemma {:induction false} LabelCount(r: seq<string>)
    requires NoRepeats(r)
    ensures |Labels(r)| == |r|
  {
    if r != [] {
      var front, last := r[..|r| - 1], r[|r| - 1];
      LabelCount(front);
      assert Labels(r) == Labels(front) + {last};
    }
  }

  lemma TauSymmetric(r1: seq<string>, r2: seq<string>)
    requires NoRepeats(r1) && NoRepeats(r2) && Labels(r1) == Labels(r2)
    ensures Tau(r1, r2) == Tau(r2, r1)
  {
    SameLength(r1, r2);
    AgreeOrConflict(r1, r2);
    AgreeOrConflict(r2, r1);
    AgreementsSymmetric(r1, r2);
    hide Agreements, Conflicts;
  }

  lemma FirstDifferenceConflicts(r1: seq<string>, r2: seq<string>, at: nat)
    requires NoRepeats(r1) && NoRepeats(r2) && Labels(r1) == Labels(r2) && |r1| == |r2|
    requires at < |r1| && r1[..at] == r2[..at] && r1[at] != r2[at]
    ensures (r1[at], r2[at]) in Conflicts(r1, r2)
  {
    var a, b := r1[at], r2[at];
    assert a in Labels(r2) && b in Labels(r1);
    IndexIs(r1, at);
    IndexIs(r2, at);
    assert forall i :: 0 <= i < at ==> r1[i] == r1[..at][i] == r2[..at][i] == r2[i];
    InPairs(r1);
  }

  lemma {:induction false} SameUpTo(r1: seq<string>, r2: seq<string>, k: nat)
    requires NoRepeats(r1) && NoRepeats(r2) && Labels(r1) == Labels(r2) && |r1| == |r2|
    requires Conflicts(r1, r2) == {} && k <= |r1|
    ensures r1[..k] == r2[..k]
  {
    hide Conflicts, NoRepeats, Labels;
    if k > 0 {
      SameUpTo(r1, r2, k - 1);
      if r1[k - 1] != r2[k - 1] {
        FirstDifferenceConflicts(r1, r2, k - 1);
      }
    }
  }

  // Without a conflict two rankings of the same labels are the same.
  lemma NoConflictMeansEqual(r1: seq<string>, r2: seq<string>)
    requires NoRepeats(r1) && NoRepeats(r2) && Labels(r1) == Labels(r2)
    ensures Conflicts(r1, r2) == {} <==> r1 == r2
  {
    SameLength(r1, r2);
    InPairs(r1);
    assert r1[..|r1|] == r1 && r2[..|r2|] == r2;
    if Conflicts(r1, r2) == {} {
      SameUpTo(r1, r2, |r1|);
    }
  }

  function Reverse(r: seq<string>): (s: seq<string>)
    ensures |s| == |r| && forall i :: 0 <= i < |r| ==> s[i] == r[|r| - 1 - i]
  {
    if r == [] then [] else [r[|r| - 1]] + Reverse(r[..|r| - 1])
  }

  lemma ReverseTurnsAround(r: seq<string>, a: string, b: string)
    requires NoRepeats(r)
    ensures NoRepeats(Reverse(r)) && Labels(Reverse(r)) == Labels(r)
    ensures Above(Reverse(r), a, b) <==> Above(r, b, a)
  {
    var s := Reverse(r);
    forall x
      ensures x in s <==> x in r
    {
      if x in r {
        assert s[|r| - 1 - IndexOf(r, x)] == x;
      }
    }
    assert NoRepeats(s);
    if a in r && b in r {
      IndexIs(s, |r| - 1 - IndexOf(r, a));
      IndexIs(s, |r| - 1 - IndexOf(r, b));
    }
  }

  lemma NoAgreementMeansReversed(r1: seq<string>, r2: seq<string>)
    requires NoRepeats(r1) && NoRepeats(r2) && Labels(r1) == Labels(r2)
    ensures Agreements(r1, r2) == {} <==> r1 == Reverse(r2)
  {
    forall p: (string, string)
      ensures Above(Reverse(r2), p.1, p.0) <==> Above(r2, p.0, p.1)
    {
      ReverseTurnsAround(r2, p.1, p.0);
    }
    ReverseTurnsAround(r2, "", "");
    hide Above, Pairs, NoRepeats, Labels, Reverse;
    assert Agreements(r1, r2) == Conflicts(r1, Reverse(r2));
    NoConflictMeansEqual(r1, Reverse(r2));
  }

  lemma QuotientBounds(agree: nat, conflict: nat, total: nat)
    requires agree + conflict == total > 0
    ensures var q := (agree - conflict) as real / total as real;
      -1.0 <= q <= 1.0 && (q == 1.0 <==> conflict == 0) && (q == -1.0 <==> agree == 0)
  {
    var x, y := (agree - conflict) as real, total as real;
    assert x == agree as real - conflict as real && y == agree as real + conflict as real;
    RealQuotient(x, y);
  }

  lemma ScaledSign(z: real, y: real)
    requires y > 0.0
    ensures (z * y > 0.0 <==> z > 0.0) && (z * y == 0.0 <==> z == 0.0)
  {}

  lemma RealQuotient(x: real, y: real)
    requires y > 0.0 && -y <= x <= y
    ensures var q := x / y;
      q * y == x && -1.0 <= q <= 1.0 && (q == 1.0 <==> x == y) && (q == -1.0 <==> x == -y)
  {
    var q := x / y;
    assert (q - 1.0) * y == x - y && (q + 1.0) * y == x + y;
    ScaledSign(q - 1.0, y);
    ScaledSign(q + 1.0, y);
  }

  // Tau lies in [-1, 1]; it is 1 exactly for equal rankings and -1 exactly for reversed ones.
  lemma TauMeaning(r1: seq<string>, r2: seq<string>)
    requires NoRepeats(r1) && NoRepeats(r2) && Labels(r1) == Labels(r2)
    ensures -1.0 <= Tau(r1, r2) <= 1.0
    ensures Tau(r1, r2) == 1.0 <==> r1 == r2
    ensures |r1| >= 2 ==> (Tau(r1, r2) == -1.0 <==> r1 == Reverse(r2))
  {
    hide Agreements, Conflicts, PairCount, Reverse, NoRepeats, Labels;
    SameLength(r1, r2);
    if |r1| >= 2 {
      CountsMeaning(r1, r2);
      PairCountPositive(|r1|);
      QuotientBounds(|Agreements(r1, r2)|, |Conflicts(r1, r2)|, PairCount(|r1|));
    } else {
      ShortRankings(r1, r2);
    }
  }

  lemma CountsMeaning(r1: seq<string>, r2: seq<string>)
    requires NoRepeats(r1) && NoRepeats(r2) && Labels(r1) == Labels(r2)
    ensures |Conflicts(r1, r2)| == 0 <==> r1 == r2
    ensures |Agreements(r1, r2)| == 0 <==> r1 == Reverse(r2)
    ensures |Agreements(r1, r2)| + |Conflicts(r1, r2)| == PairCount(|r1|)
  {
    hide Agreements, Conflicts, PairCount, Reverse, NoRepeats, Labels;
    NoConflictMeansEqual(r1, r2);
    NoAgreementMeansReversed(r1, r2);
    AgreeOrConflict(r1, r2);
  }

  lemma ShortRankings(r1: seq<string>, r2: seq<string>)
    requires |r1| == |r2| < 2 && Labels(r1) == Labels(r2)
    ensures r1 == r2
  {
    if |r1| == 1 {
      assert r1[0] in Labels(r2);
    }
  }

  // The pairs the loops have looked at: those of rows before i, and those of row i before column j.
  function Visited(r: seq<string>, i: nat, j: nat): set<(string, string)> {
    set p | p in Pairs(r) && p.0 in r && p.1 in r
        && (IndexOf(r, p.0) < i || (IndexOf(r, p.0) == i && IndexOf(r, p.1) < j))
  }

  lemma VisitOne(r: seq<string>, i: nat, j: nat)
    requires NoRepeats(r) && i < j < |r|
    ensures Visited(r, i, j + 1) == Visited(r, i, j) + {(r[i], r[j])}
    ensures (r[i], r[j]) in Pairs(r) && (r[i], r[j]) !in Visited(r, i, j)
  {
    InPairs(r);
    IndexIs(r, i);
    IndexIs(r, j);
    hide Pairs;
    forall p | p in Pairs(r) && IndexOf(r, p.0) == i && IndexOf(r, p.1) == j
      ensures p == (r[i], r[j])
    {}
  }

  lemma VisitRow(r: seq<string>, i: nat)
    requires NoRepeats(r)
    ensures Visited(r, i, |r|) == Visited(r, i + 1, i + 2)
    ensures Visited(r, 0, 1) == {} && (i >= |r| ==> Visited(r, i, i + 1) == Pairs(r))
  {
    InPairs(r);
    hide Pairs;
  }

  lemma CountOne(r1: seq<string>, r2: seq<string>, seen: set<(string, string)>, p: (string, string))
    requires p !in seen && p in Pairs(r1)
    ensures |Agreements(r1, r2) * (seen + {p})|
         == |Agreements(r1, r2) * seen| + if Above(r2, p.0, p.1) then 1 else 0
    ensures |Conflicts(r1, r2) * (seen + {p})|
         == |Conflicts(r1, r2) * seen| + if Above(r2, p.1, p.0) then 1 else 0
  {
    hide Above, Pairs, Agreements, Conflicts;
    CountMember(Agreements(r1, r2), seen, p);
    CountMember(Conflicts(r1, r2), seen, p);
    InAgreements(r1, r2, p);
  }

  lemma CountMember(a: set<(string, string)>, seen: set<(string, string)>, p: (string, string))
    requires p !in seen
    ensures |a * (seen + {p})| == |a * seen| + if p in a then 1 else 0
  {
    assert a * (seen + {p}) == a * seen + if p in a then {p} else {};
  }

  lemma InAgreements(r1: seq<string>, r2: seq<string>, p: (string, string))
    requires p in Pairs(r1)
    ensures p in Agreements(r1, r2) <==> Above(r2, p.0, p.1)
    ensures p in Conflicts(r1, r2) <==> Above(r2, p.1, p.0)
  {
    hide Above, Pairs;
  }

  // The product of the two position differences.
  function OrderProduct(pos1: map<string, int>, pos2: map<string, int>, a: string, b: string): int
    requires a in pos1 && b in pos1 && a in pos2 && b in pos2
  {
    (pos1[a] - pos1[b]) * (pos2[a] - pos2[b])
  }

  function PositionsOf(r: seq<string>): map<string, int> {
    map name | name in r :: IndexOf(r, name)
  }

  // _kendall_tau: every pair of positions of the first ranking is looked up in both.
  method KendallTau(r1: seq<string>, r2: seq<string>) returns (tau: real)
    requires NoRepeats(r1) && NoRepeats(r2) && Labels(r1) == Labels(r2)
    ensures tau == Tau(r1, r2)
  {
    hide *;
    var pos1, pos2 := PositionsOf(r1), PositionsOf(r2);
    var labels := r1;
    var n := |labels|;
    if n < 2 {
      TauOfFew(r1, r2);
      return 1.0;
    }
    var concordant, discordant := 0, 0;
    CountsOverRows(r1, r2, 0);
    for i := 0 to n
      invariant (concordant, discordant) == Counts(r1, r2, i, i + 1)
    {
      for j := i + 1 to n
        invariant (concordant, discordant) == Counts(r1, r2, i, j)
      {
        HasPositions(r1, r2, i);
        HasPositions(r1, r2, j);
        var product := OrderProduct(pos1, pos2, labels[i], labels[j]);
        LookAtPair(r1, r2, i, j, product);
        if product > 0 {
          concordant := concordant + 1;
        } else if product < 0 {
          discordant := discordant + 1;
        }
      }
      CountsOverRows(r1, r2, i);
    }
    CountsOverRows(r1, r2, n);
    var pairs := n * (n - 1) / 2;
    TauOfCounts(r1, r2, pairs);
    tau := (concordant - discordant) as real / pairs as real;
  }

  lemma HasPositions(r1: seq<string>, r2: seq<string>, i: nat)
    requires Labels(r1) == Labels(r2) && i < |r1|
    ensures r1[i] in r2 && r1[i] in PositionsOf(r1) && r1[i] in PositionsOf(r2)
  {
    assert r1[i] in Labels(r2);
  }

  // The two counts over what the loops have looked at.
  function Counts(r1: seq<string>, r2: seq<string>, i: nat, j: nat): (nat, nat) {
    (|Agreements(r1, r2) * Visited(r1, i, j)|, |Conflicts(r1, r2) * Visited(r1, i, j)|)
  }

  lemma CountsOverRows(r1: seq<string>, r2: seq<string>, i: nat)
    requires NoRepeats(r1)
    ensures Counts(r1, r2, 0, 1) == (0, 0)
    ensures Counts(r1, r2, i, |r1|) == Counts(r1, r2, i + 1, i + 2)
    ensures i >= |r1| ==> Counts(r1, r2, i, i + 1) == (|Agreements(r1, r2)|, |Conflicts(r1, r2)|)
  {
    VisitRow(r1, i);
    AllVisited(r1, r2);
    hide Agreements, Conflicts, Pairs, Visited;
    assert Agreements(r1, r2) * {} == {} && Conflicts(r1, r2) * {} == {};
  }

  lemma TauOfFew(r1: seq<string>, r2: seq<string>)
    requires |r1| < 2
    ensures Tau(r1, r2) == 1.0
  {}

  lemma TauOfCounts(r1: seq<string>, r2: seq<string>, pairs: int)
    requires |r1| >= 2 && pairs == |r1| * (|r1| - 1) / 2
    ensures pairs > 0 && Tau(r1, r2) == (|Agreements(r1, r2)| - |Conflicts(r1, r2)|) as real / pairs as real
  {
    PairCountIs(|r1|);
    PairCountPositive(|r1|);
  }

  // What one pass of the inner loop adds to the two counts.
  lemma LookAtPair(r1: seq<string>, r2: seq<string>, i: nat, j: nat, product: int)
    requires NoRepeats(r1) && NoRepeats(r2) && Labels(r1) == Labels(r2) && i < j < |r1|
    requires r1[i] in r2 && r1[j] in r2
    requires product == OrderProduct(PositionsOf(r1), PositionsOf(r2), r1[i], r1[j])
    ensures Counts(r1, r2, i, j + 1).0 == Counts(r1, r2, i, j).0 + if product > 0 then 1 else 0
    ensures Counts(r1, r2, i, j + 1).1 == Counts(r1, r2, i, j).1 + if product < 0 then 1 else 0
  {
    hide Agreements, Conflicts, Pairs, Visited, Above, NoRepeats, Labels;
    VisitOne(r1, i, j);
    CountOne(r1, r2, Visited(r1, i, j), (r1[i], r1[j]));
    ProductSign(r1, r2, i, j, product);
  }

  lemma AllVisited(r1: seq<string>, r2: seq<string>)
    ensures Agreements(r1, r2) * Pairs(r1) == Agreements(r1, r2)
    ensures Conflicts(r1, r2) * Pairs(r1) == Conflicts(r1, r2)
  {
    hide Pairs, Above;
  }

  lemma ProductSign(r1: seq<string>, r2: seq<string>, i: nat, j: nat, product: int)
    requires NoRepeats(r1) && NoRepeats(r2) && Labels(r1) == Labels(r2) && i < j < |r1|
    requires r1[i] in r2 && r1[j] in r2
    requires product == (IndexOf(r1, r1[i]) - IndexOf(r1, r1[j])) * (IndexOf(r2, r1[i]) - IndexOf(r2, r1[j]))
    ensures product > 0 <==> Above(r2, r1[i], r1[j])
    ensures product < 0 <==> Above(r2, r1[j], r1[i])
  {
    IndexIs(r1, i);
    IndexIs(r1, j);
    SignOfProduct(i - j, IndexOf(r2, r1[i]) - IndexOf(r2, r1[j]));
  }

  lemma SignOfProduct(x: int, y: int)
    requires x < 0
    ensures x * y > 0 <==> y < 0
    ensures x * y < 0 <==> y > 0
  {}

  // ---------- the confidence of a council ----------

  datatype Confidence = Confidence(
    tau: real, shouldEscalate: bool, threshold: real, pairsEvaluated: nat, completeRankings: nat)

  function Complete(results: seq<RankingResult>): seq<seq<string>> {
    if results == [] then [] else
      var last := results[|results| - 1];
      Complete(results[..|results| - 1]) + if last.isComplete then [last.ranking] else []
  }

  // The complete rankings rank the same labels.
  predicate Comparable(rankings: seq<seq<string>>, labels: set<string>) {
    forall i :: 0 <= i < |rankings| ==> IsPermutation(rankings[i], labels)
  }

  // Exactly the rankings of the complete results, one for each.
  lemma {:induction false} CompleteAre(results: seq<RankingResult>)
    ensures forall ranking :: ranking in Complete(results) <==>
              exists r :: r in results && r.isComplete && r.ranking == ranking
  {
    if results != [] {
      var n := |results| - 1;
      CompleteAre(results[..n]);
      assert results == results[..n] + [results[n]];
    }
  }

  lemma {:induction false} CompleteCount(results: seq<RankingResult>)
    ensures |Complete(results)| == |set i | 0 <= i < |results| && results[i].isComplete|
  {
    if results != [] {
      var n := |results| - 1;
      var front := results[..n];
      CompleteCount(front);
      var before := set i | 0 <= i < |front| && front[i].isComplete;
      var now := set i | 0 <= i < |results| && results[i].isComplete;
      assert now == if results[n].isComplete then before + {n} else before;
    }
  }

  method FilterComplete(results: seq<RankingResult>) returns (complete: seq<seq<string>>)
    ensures complete == Complete(results)
  {
    complete := [];
    for i := 0 to |results|
      invariant complete == Complete(results[..i])
    {
      assert results[..i + 1][..i] == results[..i];
      if results[i].isComplete {
        complete := complete + [results[i].ranking];
      }
    }
    assert results[..|results|] == results;
  }

  // The taus of ranking i with those after it and before j.
  function TauRow(rankings: seq<seq<string>>, i: nat, j: nat): real
    requires j <= |rankings|
  {
    if j <= i + 1 then 0.0 else TauRow(rankings, i, j - 1) + Tau(rankings[i], rankings[j - 1])
  }

  // The taus of the pairs whose first ranking is before i.
  function TauSum(rankings: seq<seq<string>>, i: nat): real
    requires i <= |rankings|
  {
    if i == 0 then 0.0 else TauSum(rankings, i - 1) + TauRow(rankings, i - 1, |rankings|)
  }

  /**
   compute_confidence: the mean tau over all pairs of complete rankings. It lies in [-1, 1] and is 1
   exactly when no two complete rankings differ.
   */
  method ComputeConfidence(results: seq<RankingResult>, threshold: real, ghost labels: set<string>)
    returns (confidence: Confidence)
    requires Comparable(Complete(results), labels)
    ensures -1.0 <= confidence.tau <= 1.0
    ensures var complete := Complete(results);
      && confidence.completeRankings == |complete|
      && confidence.pairsEvaluated == PairCount(|complete|)
      && (if |complete| < 2 then confidence.tau == 1.0
          else confidence.tau * PairCount(|complete|) as real == TauSum(complete, |complete|))
      && (confidence.tau == 1.0 <==> forall i, j :: 0 <= i < j < |complete| ==> complete[i] == complete[j])
      && (confidence.shouldEscalate <==> |complete| >= 2 && confidence.tau < threshold)
  {
    hide Tau, IsPermutation, PairCount, TauRow, TauSum;
    var complete := FilterComplete(results);
    var n := |complete|;
    FewPairs(n);
    if n < 2 {
      return Confidence(1.0, false, threshold, 0, n);
    }
    var sum, count := 0.0, 0;
    StartOfSums(complete);
    for i := 0 to n
      invariant count == PairCount(n) - PairCount(n - i) && sum == TauSum(complete, i)
    {
      PairCountSteps(n - i);
      StartOfRow(complete, i);
      for j := i + 1 to n
        invariant count == PairCount(n) - PairCount(n - i) + j - i - 1
        invariant sum == TauSum(complete, i) + TauRow(complete, i, j)
      {
        PermutationParts(complete[i], labels);
        PermutationParts(complete[j], labels);
        RowOneMore(complete, i, j);
        var tau := KendallTau(complete[i], complete[j]);
        sum := sum + tau;
        count := count + 1;
      }
      SumOneMore(complete, i);
    }
    MeanOfTaus(complete, labels, sum, count);
    var mean := sum / count as real;
    confidence := Confidence(mean, mean < threshold, threshold, count, n);
  }

  lemma MeanOfTaus(rankings: seq<seq<string>>, labels: set<string>, sum: real, count: int)
    requires Comparable(rankings, labels) && |rankings| >= 2
    requires sum == TauSum(rankings, |rankings|) && count == PairCount(|rankings|) - PairCount(0)
    ensures count == PairCount(|rankings|) > 0
    ensures var mean := sum / count as real;
      && mean * count as real == sum && -1.0 <= mean <= 1.0
      && (mean == 1.0 <==> forall i, j :: 0 <= i < j < |rankings| ==> rankings[i] == rankings[j])
  {
    hide Tau, IsPermutation, PairCount, TauRow, TauSum;
    PairCountPositive(|rankings|);
    NoPairCount();
    TauSumBounds(rankings, labels, |rankings|);
    MeanBounds(sum, count);
  }

  lemma FewPairs(n: nat)
    ensures n < 2 ==> PairCount(n) == 0
  {}

  lemma StartOfSums(rankings: seq<seq<string>>)
    ensures TauSum(rankings, 0) == 0.0
  {}

  lemma StartOfRow(rankings: seq<seq<string>>, i: nat)
    requires i < |rankings|
    ensures TauRow(rankings, i, i + 1) == 0.0
  {}

  lemma RowOneMore(rankings: seq<seq<string>>, i: nat, j: nat)
    requires i < j < |rankings|
    ensures TauRow(rankings, i, j + 1) == TauRow(rankings, i, j) + Tau(rankings[i], rankings[j])
  {}

  lemma SumOneMore(rankings: seq<seq<string>>, i: nat)
    requires i < |rankings|
    ensures TauSum(rankings, i + 1) == TauSum(rankings, i) + TauRow(rankings, i, |rankings|)
  {}

  lemma {:induction false} TauRowBounds(rankings: seq<seq<string>>, labels: set<string>, i: nat, j: nat)
    requires Comparable(rankings, labels) && i < j <= |rankings|
    ensures var n, row := (j - i - 1) as real, TauRow(rankings, i, j);
      -n <= row <= n && (row == n <==> forall y :: i < y < j ==> rankings[i] == rankings[y])
  {
    hide Tau, IsPermutation;
    if j > i + 1 {
      TauRowBounds(rankings, labels, i, j - 1);
      PermutationParts(rankings[i], labels);
      PermutationParts(rankings[j - 1], labels);
      TauMeaning(rankings[i], rankings[j - 1]);
    }
  }

  lemma {:induction false} TauSumBounds(rankings: seq<seq<string>>, labels: set<string>, i: nat)
    requires Comparable(rankings, labels) && i <= |rankings|
    ensures var n, sum := (PairCount(|rankings|) - PairCount(|rankings| - i)) as real, TauSum(rankings, i);
      -n <= sum <= n && (sum == n <==> forall x, y :: 0 <= x < i && x < y < |rankings| ==> rankings[x] == rankings[y])
  {
    hide Tau, TauRow, IsPermutation, PairCount;
    if i > 0 {
      TauSumBounds(rankings, labels, i - 1);
      TauRowBounds(rankings, labels, i - 1, |rankings|);
      PairCountSteps(|rankings| - i + 1);
    }
  }

  lemma PermutationParts(r: seq<string>, labels: set<string>)
    requires IsPermutation(r, labels)
    ensures NoRepeats(r) && Labels(r) == labels
  {}

  lemma PairCountSteps(n: nat)
    ensures n > 0 ==> PairCount(n) == PairCount(n - 1) + n - 1
  {}

  lemma NoPairCount()
    ensures PairCount(0) == 0
  {}

  lemma MeanBounds(sum: real, count: nat)
    requires count > 0 && -(count as real) <= sum <= count as real
    ensures var mean := sum / count as real;
      -1.0 <= mean <= 1.0 && (mean == 1.0 <==> sum == count as real)
  {
    RealQuotient(sum, count as real);
  }

  // ---------- Borda counting ----------

  // What one ranking of n candidates gives a label: n - 1 for the first place down to 0 for the last.
  function Points(ranking: seq<string>, n: nat, name: string): int {
    if name in ranking then n - 1 - IndexOf(ranking, name) else 0
  }

  function Score(rankings: seq<seq<string>>, n: nat, name: string): int {
    if rankings == [] then 0
    else Score(rankings[..|rankings| - 1], n, name) + Points(rankings[|rankings| - 1], n, name)
  }

  // The inner loop over one complete ranking.
  method AddPoints(ranking: seq<string>, n: nat, scores: map<string, int>) returns (scores': map<string, int>)
    requires NoRepeats(ranking)
    ensures scores' == map name | name in scores :: scores[name] + Points(ranking, n, name)
  {
    scores' := scores;
    for i := 0 to |ranking|
      invariant scores'.Keys == scores.Keys
      invariant forall name :: name in scores ==>
        scores'[name] == scores[name] + if name in ranking[..i] then Points(ranking, n, name) else 0
    {
      IndexIs(ranking, i);
      assert ranking[..i + 1] == ranking[..i] + [ranking[i]];
      assert ranking[i] !in ranking[..i];
      if ranking[i] in scores' {
        scores' := scores'[ranking[i] := scores'[ranking[i]] + n - 1 - i];
      }
    }
    assert ranking[..|ranking|] == ranking;
  }

  method BordaCount(results: seq<RankingResult>, labels: seq<string>) returns (scores: map<string, int>)
    requires forall r :: r in results && r.isComplete ==> NoRepeats(r.ranking)
    ensures scores == map name | name in labels :: Score(Complete(results), |labels|, name)
  {
    hide NoRepeats, Points;
    scores := map name | name in labels :: 0;
    for i := 0 to |results|
      invariant scores == map name | name in labels :: Score(Complete(results[..i]), |labels|, name)
    {
      assert results[..i + 1][..i] == results[..i];
      var before := Complete(results[..i]);
      assert before + [] == before;
      if results[i].isComplete {
        assert (before + [results[i].ranking])[..|before|] == before;
        scores := AddPoints(results[i].ranking, |labels|, scores);
      }
    }
    assert results[..|results|] == results;
  }

  // _pick_winner: the least label by (-score, label); None for an empty table.
  function PickWinner(scores: map<string, int>, names: seq<string>): (winner: Option<string>)
    requires forall name :: name in names ==> name in scores
    ensures winner.Some? ==> winner.value in names
  {
    if names == [] then None else
      var name := names[|names| - 1];
      var best := PickWinner(scores, names[..|names| - 1]);
      if best.None? || Beats(scores, name, best.value) then Some(name) else best
  }

  // A place is worth as many points as there are places behind it; a label that is not ranked gets none.
  lemma PointsAre(ranking: seq<string>, n: nat, i: nat)
    requires NoRepeats(ranking) && i < |ranking|
    ensures Points(ranking, n, ranking[i]) == n - (i + 1)
    ensures forall name :: name !in ranking ==> Points(ranking, n, name) == 0
  {
    IndexIs(ranking, i);
  }

  predicate Beats(scores: map<string, int>, a: string, b: string) {
    a in scores && b in scores && (scores[a] > scores[b] || (scores[a] == scores[b] && Leq(a, b)))
  }

  lemma BeatsIsOrder(scores: map<string, int>, a: string, b: string, c: string)
    requires a in scores && b in scores && c in scores
    ensures Beats(scores, a, b) || Beats(scores, b, a)
    ensures Beats(scores, a, b) && Beats(scores, b, c) ==> Beats(scores, a, c)
  {
    LeqTotal(a, b);
    if Leq(a, b) && Leq(b, c) {
      LeqTransitive(a, b, c);
    }
  }

  lemma {:induction false} WinnerBeatsAll(scores: map<string, int>, names: seq<string>)
    requires names != [] && forall name :: name in names ==> name in scores
    ensures var winner := PickWinner(scores, names);
      winner.Some? && forall name :: name in names ==> Beats(scores, winner.value, name)
  {
    hide Beats;
    var front, last := names[..|names| - 1], names[|names| - 1];
    assert names == front + [last];
    BeatsIsOrder(scores, last, last, last);
    if front != [] {
      WinnerBeatsAll(scores, front);
      var best := PickWinner(scores, front).value;
      forall name | name in front
        ensures Beats(scores, last, best) ==> Beats(scores, last, name)
      {
        BeatsIsOrder(scores, last, best, name);
      }
      BeatsIsOrder(scores, last, best, best);
    }
  }

  // ---------- what the count guarantees ----------

  lemma {:induction false} ScoresFollowAgreement(rankings: seq<seq<string>>, n: nat, a: string, b: string)
    requires forall r :: r in rankings ==> Above(r, a, b)
    ensures Score(rankings, n, a) >= Score(rankings, n, b) + |rankings|
  {
    if rankings != [] {
      var last := |rankings| - 1;
      assert rankings[last] in rankings;
      ScoresFollowAgreement(rankings[..last], n, a, b);
    }
  }

  /**
   Unanimity: with at least one complete ranking, a label that every complete ranking puts below some other
   label is not the winner.
   */
  // No other score is higher, and among equal ones no other name comes first.
  lemma WinnerIsFirst(scores: map<string, int>, names: seq<string>, name: string)
    requires (forall n :: n in names ==> n in scores) && name in names
    ensures PickWinner(scores, names).Some?
    ensures var winner := PickWinner(scores, names).value;
      winner in scores && (scores[name] < scores[winner] || (scores[name] == scores[winner] && Leq(winner, name)))
  {
    WinnerBeatsAll(scores, names);
    hide PickWinner;
  }

  lemma DominatedNeverWins(
    rankings: seq<seq<string>>, labels: seq<string>, scores: map<string, int>, a: string, b: string)
    requires rankings != [] && a in labels && b in labels
    requires forall r :: r in rankings ==> Above(r, a, b)
    requires scores == map name | name in labels :: Score(rankings, |labels|, name)
    ensures PickWinner(scores, labels).Some? && PickWinner(scores, labels).value != b
  {
    ScoresFollowAgreement(rankings, |labels|, a, b);
    WinnerBeatsAll(scores, labels);
  }

  function SumOf(names: seq<string>, value: string -> int): int {
    if names == [] then 0 else SumOf(names[..|names| - 1], value) + value(names[|names| - 1])
  }

  lemma {:induction false} SumWithout(names: seq<string>, value: string -> int, i: nat)
    requires i < |names|
    ensures SumOf(names, value) == SumOf(names[..i] + names[i + 1..], value) + value(names[i])
  {
    var last := |names| - 1;
    if i == last {
      assert names[..i] + names[i + 1..] == names[..last];
    } else {
      var front := names[..last];
      SumWithout(front, value, i);
      var rest := names[..i] + names[i + 1..];
      assert rest[..|rest| - 1] == front[..i] + front[i + 1..];
    }
  }

  // A sum does not depend on the order of its terms.
  lemma {:induction false} SumOfPermuted(a: seq<string>, b: seq<string>, value: string -> int)
    requires NoRepeats(a) && NoRepeats(b) && Labels(a) == Labels(b)
    ensures SumOf(a, value) == SumOf(b, value)
    decreases |a|
  {
    SameLength(a, b);
    if a != [] {
      var last := |a| - 1;
      var x := a[last];
      assert x in Labels(b);
      var i := IndexOf(b, x);
      var rest := b[..i] + b[i + 1..];
      WithoutOne(b, i);
      assert a == a[..last] + [x];
      assert Labels(a[..last]) == Labels(a) - {x};
      SumOfPermuted(a[..last], rest, value);
      SumWithout(b, value, i);
    }
  }

  lemma WithoutOne(b: seq<string>, i: nat)
    requires NoRepeats(b) && i < |b|
    ensures var rest := b[..i] + b[i + 1..];
      NoRepeats(rest) && Labels(rest) == Labels(b) - {b[i]}
  {
    var rest := b[..i] + b[i + 1..];
    assert forall j :: 0 <= j < |rest| ==> rest[j] == if j < i then b[j] else b[j + 1];
    forall x
      ensures x in rest <==> x in b && x != b[i]
    {
      if x in b && x != b[i] {
        var j := IndexOf(b, x);
        assert rest[if j < i then j else j - 1] == x;
      }
    }
  }

  lemma {:induction false} PointsOfPrefix(r: seq<string>, n: nat, k: nat)
    requires NoRepeats(r) && k <= |r| <= n
    ensures SumOf(r[..k], name => Points(r, n, name)) == k * (n - 1) - PairCount(k)
  {
    if k > 0 {
      PointsOfPrefix(r, n, k - 1);
      IndexIs(r, k - 1);
      assert r[..k][..k - 1] == r[..k - 1];
      assert k * (n - 1) == (k - 1) * (n - 1) + (n - 1);
    }
  }

  // One complete ranking hands out n(n-1)/2 points.
  lemma PointsOfRanking(r: seq<string>, labels: seq<string>)
    requires NoRepeats(r) && NoRepeats(labels) && Labels(r) == Labels(labels)
    ensures SumOf(labels, name => Points(r, |labels|, name)) == PairCount(|labels|)
  {
    var n := |labels|;
    SameLength(r, labels);
    SumOfPermuted(labels, r, name => Points(r, n, name));
    PointsOfPrefix(r, n, n);
    assert r[..n] == r;
    PairCountIs(n);
    assert n * (n - 1) == 2 * PairCount(n) by { EvenProduct(n); }
  }

  lemma {:induction false} EvenProduct(n: nat)
    ensures n * (n - 1) == 2 * PairCount(n)
  {
    if n > 0 {
      EvenProduct(n - 1);
      assert n * (n - 1) == (n - 1) * (n - 2) + 2 * (n - 1);
    }
  }

  lemma {:induction false} SumOfSums(names: seq<string>, f: string -> int, g: string -> int, h: string -> int)
    requires forall x :: h(x) == f(x) + g(x)
    ensures SumOf(names, h) == SumOf(names, f) + SumOf(names, g)
  {
    if names != [] {
      SumOfSums(names[..|names| - 1], f, g, h);
    }
  }

  lemma {:induction false} SumOfZeros(names: seq<string>, f: string -> int)
    requires forall x :: f(x) == 0
    ensures SumOf(names, f) == 0
  {
    if names != [] {
      SumOfZeros(names[..|names| - 1], f);
    }
  }

  // Conservation: all scores together are n(n-1)/2 points for each complete ranking.
  lemma {:induction false} ScoresAddUp(rankings: seq<seq<string>>, labels: seq<string>)
    requires NoRepeats(labels) && Comparable(rankings, Labels(labels))
    ensures SumOf(labels, name => Score(rankings, |labels|, name)) == |rankings| * PairCount(|labels|)
  {
    var n := |labels|;
    var total := name => Score(rankings, n, name);
    if rankings == [] {
      SumOfZeros(labels, total);
    } else {
      var last := |rankings| - 1;
      ScoresAddUp(rankings[..last], labels);
      PointsOfRanking(rankings[last], labels);
      SumOfSums(labels, name => Score(rankings[..last], n, name), name => Points(rankings[last], n, name), total);
      assert |rankings| * PairCount(n) == last * PairCount(n) + PairCount(n);
    }
  }
}
