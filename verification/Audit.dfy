/** The hash-chained audit log of sera/safety/audit.py, over an abstract hash. */
module Audit {
  // The payload is canonical JSON text here, and ts the number of a clock reading.
  datatype Fields = Fields(seqNo: int, ts: int, kind: string, payload: string, prevHash: string)

  datatype Entry = Entry(fields: Fields, hash: string)

  const GENESIS := "0000000000000000000000000000000000000000000000000000000000000000"

  type Hash = Fields -> string

  // What the design asks of SHA-256 over canonical JSON.
  ghost predicate Ideal(h: Hash) {
    (forall f, g :: h(f) == h(g) ==> f == g) && forall f :: h(f) != GENESIS
  }

  function LastHash(log: seq<Entry>): string {
    if log == [] then GENESIS else log[|log| - 1].hash
  }

  function NextSeq(log: seq<Entry>): int {
    if log == [] then 0 else log[|log| - 1].fields.seqNo + 1
  }

  // Entries are numbered from zero, so that a number names one entry.
  predicate Numbered(log: seq<Entry>) {
    forall i :: 0 <= i < |log| ==> log[i].fields.seqNo == i
  }

  // The entry at i recomputes and is linked to the one before it.
  predicate EntryOk(h: Hash, log: seq<Entry>, i: nat)
    requires i < |log|
  {
    log[i].hash == h(log[i].fields) && log[i].fields.prevHash == LastHash(log[..i])
  }

  predicate Clean(h: Hash, log: seq<Entry>) {
    forall i :: 0 <= i < |log| ==> EntryOk(h, log, i)
  }

  // The sequence numbers of the entries among the first n that fail.
  function BadBefore(h: Hash, log: seq<Entry>, n: nat): set<int>
    requires n <= |log|
  {
    set i | 0 <= i < n && !EntryOk(h, log, i) :: log[i].fields.seqNo
  }

  // What verify returns, as a set.
  function BadNumbers(h: Hash, log: seq<Entry>): set<int> {
    BadBefore(h, log, |log|)
  }

  lemma BadOneMore(h: Hash, log: seq<Entry>, n: nat)
    requires n < |log|
    ensures BadBefore(h, log, n + 1)
         == BadBefore(h, log, n) + if EntryOk(h, log, n) then {} else {log[n].fields.seqNo}
  {
    hide EntryOk;
  }

  class AuditLog {
    const hash: Hash
    var entries: seq<Entry>

    constructor (hash: Hash)
      ensures this.hash == hash && entries == []
    {
      this.hash, entries := hash, [];
    }

    method Append(kind: string, payload: string, ts: int) returns (entry: Entry)
      modifies this
      ensures entries == old(entries) + [entry]
      ensures entry.fields == Fields(NextSeq(old(entries)), ts, kind, payload, LastHash(old(entries)))
      ensures Clean(hash, old(entries)) <==> Clean(hash, entries)
      ensures Numbered(old(entries)) ==> Numbered(entries)
    {
      var fields := Fields(NextSeq(entries), ts, kind, payload, LastHash(entries));
      entry := Entry(fields, hash(fields));
      CleanOneMore(hash, entries, entry);
      entries := entries + [entry];
    }

    // The running hash and the list of bad numbers of verify; the code sorts the result.
    method Verify() returns (bad: set<int>)
      ensures bad == BadNumbers(hash, entries)
      ensures bad == {} <==> Clean(hash, entries)
    {
      bad := {};
      var prevHash := GENESIS;
      for i := 0 to |entries|
        invariant prevHash == LastHash(entries[..i])
        invariant bad == BadBefore(hash, entries, i)
      {
        var entry := entries[i];
        BadOneMore(hash, entries, i);
        if entry.hash != hash(entry.fields) {
          bad := bad + {entry.fields.seqNo};
        }
        if entry.fields.prevHash != prevHash {
          if entry.fields.seqNo !in bad {
            bad := bad + {entry.fields.seqNo};
          }
        }
        prevHash := entry.hash;
      }
      CleanMeansNoneBad(hash, entries);
    }
  }

  lemma CleanOneMore(h: Hash, log: seq<Entry>, entry: Entry)
    ensures Clean(h, log + [entry]) <==>
            Clean(h, log) && entry.hash == h(entry.fields) && entry.fields.prevHash == LastHash(log)
  {
    var more := log + [entry];
    assert more[..|log|] == log;
    forall i | 0 <= i < |log|
      ensures EntryOk(h, more, i) <==> EntryOk(h, log, i)
    {
      assert more[..i] == log[..i];
    }
    assert EntryOk(h, more, |log|) <==> entry.hash == h(entry.fields) && entry.fields.prevHash == LastHash(log);
    if Clean(h, more) {
      assert forall i :: 0 <= i < |log| ==> EntryOk(h, more, i);
    }
  }

  lemma CleanPrefix(h: Hash, log: seq<Entry>, k: nat)
    requires Clean(h, log) && k <= |log|
    ensures Clean(h, log[..k])
  {
    forall i | 0 <= i < k
      ensures EntryOk(h, log[..k], i)
    {
      assert log[..k][..i] == log[..i];
      assert EntryOk(h, log, i);
    }
  }

  // The last hash stands for the whole clean log.
  lemma {:induction false} LastHashDetermines(h: Hash, a: seq<Entry>, b: seq<Entry>)
    requires Ideal(h) && Clean(h, a) && Clean(h, b) && LastHash(a) == LastHash(b)
    ensures a == b
  {
    assert a != [] ==> EntryOk(h, a, |a| - 1);
    assert b != [] ==> EntryOk(h, b, |b| - 1);
    if a != [] && b != [] {
      var i, j := |a| - 1, |b| - 1;
      CleanPrefix(h, a, i);
      CleanPrefix(h, b, j);
      LastHashDetermines(h, a[..i], b[..j]);
      assert a == a[..i] + [a[i]] && b == b[..j] + [b[j]];
    }
  }

  /**
   Tamper evidence: any change to a clean log (edits, insertions, removals, reordering) that keeps the last
   hash makes verification fail.
   */
  lemma TamperingIsEvident(h: Hash, log: seq<Entry>, tampered: seq<Entry>)
    requires Ideal(h) && Clean(h, log)
    ensures LastHash(tampered) == LastHash(log) && tampered != log ==> BadNumbers(h, tampered) != {}
  {
    if LastHash(tampered) == LastHash(log) && tampered != log {
      if Clean(h, tampered) {
        LastHashDetermines(h, log, tampered);
      } else {
        var i :| 0 <= i < |tampered| && !EntryOk(h, tampered, i);
        assert tampered[i].fields.seqNo in BadNumbers(h, tampered);
      }
    }
  }

  // Changing an entry that is not the last one keeps the last hash, so it is evident.
  lemma InnerEditIsEvident(h: Hash, log: seq<Entry>, i: nat, entry: Entry)
    requires Ideal(h) && Clean(h, log) && i + 1 < |log| && entry != log[i]
    ensures BadNumbers(h, log[i := entry]) != {}
  {
    var tampered := log[i := entry];
    assert tampered[i] != log[i];
    TamperingIsEvident(h, log, tampered);
  }

  /**
   What verification cannot see: a clean log with its end cut off, and a last entry that is replaced by
   another one with its own hash. For a change of the last entry it sees exactly the other cases.
   */
  lemma UnseenChanges(h: Hash, log: seq<Entry>, k: nat, last: Entry)
    requires Clean(h, log) && log != [] && k <= |log|
    ensures BadNumbers(h, log[..k]) == {}
    ensures BadNumbers(h, log[|log| - 1 := last]) == {} <==>
            last.hash == h(last.fields) && last.fields.prevHash == LastHash(log[..|log| - 1])
  {
    CleanPrefix(h, log, k);
    CleanMeansNoneBad(h, log[..k]);
    var front := log[..|log| - 1];
    CleanPrefix(h, log, |log| - 1);
    assert log[|log| - 1 := last] == front + [last];
    CleanOneMore(h, front, last);
    CleanMeansNoneBad(h, front + [last]);
  }

  lemma CleanMeansNoneBad(h: Hash, log: seq<Entry>)
    ensures BadNumbers(h, log) == {} <==> Clean(h, log)
  {
    if i :| 0 <= i < |log| && !EntryOk(h, log, i) {
      assert log[i].fields.seqNo in BadNumbers(h, log);
    }
  }
}
