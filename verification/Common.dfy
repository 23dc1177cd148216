// Small datatypes and facts shared by the other modules.

module Wrappers {
  datatype Option<+T> = None | Some(value: T)

  datatype Result<+T, +E> = Ok(value: T) | Err(error: E)
}

module Sequences {
  predicate NoRepeats<T(==)>(xs: seq<T>) {
    forall i, j :: 0 <= i < j < |xs| ==> xs[i] != xs[j]
  }

  function Concat(parts: seq<string>): string {
    if parts == [] then "" else parts[0] + Concat(parts[1..])
  }
}

/** Python's order on `str`: lexicographic by code point. */
module StringOrder {
  predicate Leq(a: string, b: string) {
    a == "" || (b != "" && (a[0] < b[0] || (a[0] == b[0] && Leq(a[1..], b[1..]))))
  }

  // The texts differ first at i, where a has the smaller code point.
  predicate SmallerAt(a: string, b: string, i: nat) {
    i < |a| && i < |b| && a[..i] == b[..i] && a[i] < b[i]
  }

  // By code point at the first difference; a prefix comes first.
  lemma {:induction false} LeqIsByCodePoint(a: string, b: string)
    ensures Leq(a, b) <==> a <= b || exists i: nat :: SmallerAt(a, b, i)
  {
    if a != "" && b != "" {
      FirstDecides(a, b);
      if a[0] == b[0] {
        LeqIsByCodePoint(a[1..], b[1..]);
        if i: nat :| SmallerAt(a[1..], b[1..], i) {
          SmallerBehindFirst(a, b, i);
          assert SmallerAt(a, b, i + 1);
        }
        if i: nat :| SmallerAt(a, b, i) {
          assert i > 0;
          SmallerBehindFirst(a, b, i - 1);
          assert SmallerAt(a[1..], b[1..], i - 1);
        }
      } else {
        assert SmallerAt(a, b, 0) <==> a[0] < b[0];
      }
    }
  }

  lemma FirstDecides(a: string, b: string)
    requires a != "" && b != ""
    ensures a[0] == b[0] ==> (a <= b <==> a[1..] <= b[1..])
    ensures a[0] != b[0] ==> !(a <= b) && forall i: nat :: SmallerAt(a, b, i) <==> i == 0 && a[0] < b[0]
  {
    assert a == [a[0]] + a[1..] && b == [b[0]] + b[1..];
    assert a[..0] == b[..0];
    assert forall i :: 0 < i <= |a| && i <= |b| ==> a[..i][0] == a[0] && b[..i][0] == b[0];
  }

  lemma SmallerBehindFirst(a: string, b: string, i: nat)
    requires a != "" && b != "" && a[0] == b[0]
    ensures SmallerAt(a[1..], b[1..], i) <==> SmallerAt(a, b, i + 1)
  {
    if i + 1 < |a| && i + 1 < |b| {
      assert a[..i + 1] == [a[0]] + a[1..][..i] && b[..i + 1] == [b[0]] + b[1..][..i];
    }
  }

  lemma {:induction false} LeqTotal(a: string, b: string)
    ensures Leq(a, b) || Leq(b, a)
  {
    if a != "" && b != "" {
      LeqTotal(a[1..], b[1..]);
    }
  }

  lemma {:induction false} LeqAntisymmetric(a: string, b: string)
    requires Leq(a, b) && Leq(b, a)
    ensures a == b
  {
    if a != "" && b != "" {
      LeqAntisymmetric(a[1..], b[1..]);
      assert a == [a[0]] + a[1..] && b == [b[0]] + b[1..];
    }
  }

  lemma {:induction false} LeqTransitive(a: string, b: string, c: string)
    requires Leq(a, b) && Leq(b, c)
    ensures Leq(a, c)
  {
    if a != "" && a[0] == b[0] == c[0] {
      LeqTransitive(a[1..], b[1..], c[1..]);
    }
  }
}
