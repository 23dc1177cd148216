/**
 The mutable objects of sera/sync/crdt.py and the endpoints of sera/sync/relay.py. Each method
 is tied to the value functions of Crdt; the frames say what a merge may touch and share.
 */
module CrdtObjects {
  import opened Wrappers
  import opened Crdt

  // A Python set of uids: an object of its own, so that sharing one would be visible.
  class UidSet {
    var uids: set<string>

    constructor ()
      ensures uids == {}
    {
      uids := {};
    }
  }

  class LWWRegister {
    var store: Register

    constructor ()
      ensures store == map[]
    {
      store := map[];
    }

    // Reads back every register this JSON is a form of.
    constructor FromJson(data: Option<map<string, EntryJson>>)
      ensures store == RegisterFromJson(data)
      ensures forall reg :: IsRegisterJson(data, reg) ==> store == reg
    {
      store := map[];
      new;
      if data.Some? {
        var entries := data.value;
        var todo := entries.Keys;
        while todo != {}
          invariant todo <= entries.Keys && store.Keys == entries.Keys - todo
          invariant forall key :: key in store ==>
            store[key] == LWWEntry(entries[key].value, entries[key].ts, entries[key].nodeId)
          decreases todo
        {
          var key :| key in todo;
          var entry := entries[key];
          store := store[key := LWWEntry(entry.value, entry.ts, entry.nodeId)];
          todo := todo - {key};
        }
      }
      forall reg | IsRegisterJson(data, reg) ensures RegisterFromJson(data) == reg {
        RegisterRoundTrip(data, reg);
      }
    }

    method Set(key: string, value: Value, nodeId: string, ts: real)
      modifies this
      ensures store == MergeRegister(old(store), map[key := LWWEntry(value, ts, nodeId)])
      ensures store.Keys == old(store.Keys) + {key}
      ensures forall k :: k in old(store) && k != key ==> store[k] == old(store)[k]
    {
      var entry := LWWEntry(value, ts, nodeId);
      SetIsMerge(store, key, entry);
      store := store[key := if key in store then LwwWins(entry, store[key]) else entry];
    }

    function ToJson(): map<string, EntryJson>
      reads this
    {
      map key | key in store :: EntryJson(store[key].value, store[key].ts, store[key].nodeId)
    }

    method Merge(other: LWWRegister)
      modifies this
      ensures store == MergeRegister(old(store), old(other.store))
    {
      var theirs := other.store;
      var todo := theirs.Keys;
      while todo != {}
        invariant todo <= theirs.Keys
        invariant store.Keys == old(store).Keys + (theirs.Keys - todo)
        invariant forall key :: key in store ==>
          store[key] == if key in theirs && key !in todo
                        then MergeRegister(old(store), theirs)[key] else old(store)[key]
        decreases todo
      {
        var key :| key in todo;
        var entry := theirs[key];
        store := store[key := if key in store then LwwWins(entry, store[key]) else entry];
        todo := todo - {key};
      }
      assert store.Keys == MergeRegister(old(store), theirs).Keys;
    }
  }

  // The keys of theirs outside todo have been merged into mine, giving now.
  ghost predicate PartlyMerged(
    mine: map<string, set<string>>, theirs: map<string, set<string>>, todo: set<string>, now: map<string, set<string>>)
  {
    now.Keys == mine.Keys + (theirs.Keys - todo)
    && forall e :: e in now ==> now[e] == if e in todo then UidsOf(mine, e) else UidsOf(mine, e) + UidsOf(theirs, e)
  }

  lemma NothingMergedYet(mine: map<string, set<string>>, theirs: map<string, set<string>>)
    ensures PartlyMerged(mine, theirs, theirs.Keys, mine)
  {}

  lemma MergeOneMore(
    mine: map<string, set<string>>, theirs: map<string, set<string>>, todo: set<string>, now: map<string, set<string>>,
    e: string)
    requires PartlyMerged(mine, theirs, todo, now) && e in todo && e in theirs
    ensures e in mine ==> e in now && now[e] == mine[e]
    ensures PartlyMerged(mine, theirs, todo - {e}, now[e := UidsOf(now, e) + theirs[e]])
  {}

  lemma PartlyMergedIsMerged(
    mine: map<string, set<string>>, theirs: map<string, set<string>>, now: map<string, set<string>>)
    requires PartlyMerged(mine, theirs, {}, now)
    ensures now == MergeAdds(mine, theirs)
  {}

  class ORSet {
    var adds: map<string, UidSet>
    var removes: set<string>
    var entries: map<string, ORSetEntry>
    ghost var state: ORState
    ghost var Repr: set<object>

    // Every element has a set object of its own.
    ghost predicate Separate()
      reads this
    {
      this in Repr && (forall e :: e in adds ==> adds[e] in Repr)
      && forall e, f :: e in adds && f in adds && e != f ==> adds[e] != adds[f]
    }

    ghost function Uids(): map<string, set<string>>
      reads this, set e | e in adds :: adds[e]
    {
      map e | e in adds :: adds[e].uids
    }

    ghost predicate Valid()
      reads this, Repr
      ensures Valid() ==> this in Repr
    {
      Separate() && state == ORState(Uids(), removes, entries)
    }

    lemma ValidIs()
      requires Valid()
      ensures Separate() && Uids() == state.adds && forall e :: e in adds ==> adds[e] in Repr
    {}

    constructor ()
      ensures Valid() && fresh(Repr) && state == EMPTY_DOC.chunks
    {
      adds, removes, entries := map[], {}, map[];
      state, Repr := EMPTY_DOC.chunks, {this};
    }

    // The set object of one element takes in more uids; it is made if it is missing.
    method Absorb(element: string, uids: set<string>)
      requires Separate()
      modifies this`adds, this`Repr, if element in adds then {adds[element]} else {}
      ensures Separate() && fresh(Repr - old(Repr))
      ensures adds.Keys == old(adds.Keys) + {element}
      ensures forall e :: e in adds ==> if e in old(adds) then adds[e] == old(adds[e]) else fresh(adds[e])
      ensures Uids() == old(Uids())[element := UidsOf(old(Uids()), element) + uids]
    {
      if element !in adds {
        var empty := new UidSet();
        adds := adds[element := empty];
        Repr := Repr + {empty};
      }
      var uidSet := adds[element];
      uidSet.uids := uidSet.uids + uids;
    }

    method Add(element: string, uid: string, nodeId: string, ts: real)
      requires Valid()
      modifies Repr
      ensures Valid() && fresh(Repr - old(Repr))
      ensures state == AddToState(old(state), element, ORSetEntry(uid, nodeId, ts))
    {
      hide UidsOf;
      Absorb(element, {uid});
      entries := entries[uid := ORSetEntry(uid, nodeId, ts)];
      state := AddToState(state, element, ORSetEntry(uid, nodeId, ts));
    }

    method Remove(element: string)
      requires Valid()
      modifies this`removes, this`state
      ensures Valid() && state == RemoveFromState(old(state), element)
    {
      if element in adds {
        removes := removes + adds[element].uids;
      }
      state := RemoveFromState(state, element);
    }

    method Contains(element: string) returns (present: bool)
      requires Valid()
      ensures present <==> Crdt.Contains(state, element)
    {
      present := element in adds && adds[element].uids - removes != {};
    }

    // One round of the loop of MergeUids.
    method MergeElement(
      other: ORSet, element: string,
      ghost mine: map<string, set<string>>, ghost incoming: map<string, set<string>>, ghost todo: set<string>)
      requires Separate() && element in todo && element in other.adds && element in incoming
      requires other == this || incoming[element] == other.adds[element].uids
      requires other == this ==> mine == incoming
      requires PartlyMerged(mine, incoming, todo, Uids())
      modifies this`adds, this`Repr, if element in adds then {adds[element]} else {}
      ensures Separate() && fresh(Repr - old(Repr))
      ensures adds.Keys == old(adds.Keys) + {element}
      ensures forall e :: e in adds ==> if e in old(adds) then adds[e] == old(adds[e]) else fresh(adds[e])
      ensures PartlyMerged(mine, incoming, todo - {element}, Uids())
    {
      hide PartlyMerged, UidsOf;
      MergeOneMore(mine, incoming, todo, Uids(), element);
      assert other == this ==> other.adds[element].uids == Uids()[element];
      Absorb(element, other.adds[element].uids);
    }

    // The loop over the other set's elements.
    method MergeUids(other: ORSet)
      requires Valid() && other.Valid()
      requires other == this || Repr !! other.Repr
      modifies this`adds, this`Repr, set e | e in adds :: adds[e]
      ensures Separate() && fresh(Repr - old(Repr))
      ensures Uids() == MergeAdds(old(state.adds), old(other.state.adds))
    {
      hide PartlyMerged, MergeAdds, UidsOf, Separate, Valid;
      ghost var mine, incoming := state.adds, other.state.adds;
      NothingMergedYet(mine, incoming);
      ValidIs();
      other.ValidIs();
      var theirs := other.adds;
      var todo := theirs.Keys;
      assert todo == incoming.Keys;
      while todo != {}
        invariant Separate() && fresh(Repr - old(Repr))
        invariant forall e :: e in adds ==> fresh(adds[e]) || (e in old(adds) && adds[e] == old(adds[e]))
        invariant forall e :: e in theirs ==> e in other.adds && other.adds[e] == theirs[e]
        invariant todo <= theirs.Keys
        invariant PartlyMerged(mine, incoming, todo, Uids())
        decreases todo
      {
        var e :| e in todo;
        assert other != this ==> theirs[e] !in old(Repr);
        MergeElement(other, e, mine, incoming, todo);
        todo := todo - {e};
      }
      PartlyMergedIsMerged(mine, incoming, Uids());
    }

    // A set merged into itself stays as it is; a merge with another set leaves that set alone.
    method Merge(other: ORSet)
      requires Valid() && other.Valid()
      requires other == this || Repr !! other.Repr
      modifies Repr
      ensures Valid() && fresh(Repr - old(Repr))
      ensures state == MergeORState(old(state), old(other.state))
    {
      hide MergeAdds, UidsOf;
      MergeUids(other);
      removes := removes + other.removes;
      entries := entries + other.entries;
      state := MergeORState(state, old(other.state));
    }

    constructor FromJson(data: Option<ORSetJson>)
      ensures Valid() && fresh(Repr) && state == ORStateFromJson(data)
    {
      adds, removes, entries, Repr := map[], {}, map[], {this};
      new;
      if data.Some? && data.value.adds.Some? {
        ReadAdds(data.value.adds.value);
      }
      var read := ORStateFromJson(data);
      removes, entries := read.removes, read.entries;
      state := read;
    }

    method ReadAdds(lists: map<string, seq<string>>)
      requires Separate() && adds == map[]
      modifies this`adds, this`Repr
      ensures Separate() && fresh(Repr - old(Repr))
      ensures Uids() == map e | e in lists :: SetOf(lists[e])
    {
      var todo := lists.Keys;
      while todo != {}
        invariant Separate() && fresh(Repr - old(Repr)) && todo <= lists.Keys
        invariant forall e :: e in adds ==> fresh(adds[e])
        invariant adds.Keys == lists.Keys - todo
        invariant forall e :: e in adds ==> adds[e].uids == SetOf(lists[e])
        decreases todo
      {
        var e :| e in todo;
        var uidSet := new UidSet();
        uidSet.uids := SetOf(lists[e]);
        adds := adds[e := uidSet];
        Repr := Repr + {uidSet};
        todo := todo - {e};
      }
    }
  }

  // Lists a set in some order.
  method ListOf(s: set<string>) returns (xs: seq<string>)
    ensures Lists(xs, s)
  {
    xs := [];
    var todo := s;
    while todo != {}
      invariant todo <= s && SetOf(xs) == s - todo
      invariant forall i, j :: 0 <= i < j < |xs| ==> xs[i] != xs[j]
      decreases todo
    {
      var x :| x in todo;
      assert x !in SetOf(xs);
      assert SetOf(xs + [x]) == SetOf(xs) + {x};
      xs := xs + [x];
      todo := todo - {x};
    }
  }

  class CRDTDocument {
    var chunks: ORSet
    var entities: LWWRegister
    var relations: LWWRegister
    ghost var state: Doc
    ghost var Repr: set<object>

    ghost predicate Valid()
      reads this, Repr
      ensures Valid() ==> this in Repr
    {
      this in Repr && chunks in Repr && chunks.Repr <= Repr && entities in Repr && relations in Repr
      && entities != relations && {this, entities, relations} !! chunks.Repr
      && chunks.Valid()
      && state == Doc(chunks.state, entities.store, relations.store)
    }

    constructor ()
      ensures Valid() && fresh(Repr) && state == EMPTY_DOC
    {
      chunks := new ORSet();
      entities := new LWWRegister();
      relations := new LWWRegister();
      state := EMPTY_DOC;
      new;
      Repr := {this, entities, relations} + chunks.Repr;
    }

    constructor FromJson(data: DocJson)
      ensures Valid() && fresh(Repr) && state == Crdt.FromJson(data)
    {
      chunks := new ORSet.FromJson(data.chunks);
      entities := new LWWRegister.FromJson(data.entities);
      relations := new LWWRegister.FromJson(data.relations);
      state := Crdt.FromJson(data);
      new;
      Repr := {this, entities, relations} + chunks.Repr;
    }

    // In place: this document becomes the merge. Its new objects are fresh, so a document that
    // shared nothing with it before the merge keeps its state and shares nothing after it.
    method Merge(other: CRDTDocument)
      requires Valid() && other.Valid()
      requires other == this || Repr !! other.Repr
      modifies Repr
      ensures Valid() && fresh(Repr - old(Repr))
      ensures state == MergeDoc(old(state), old(other.state))
      ensures other != this ==> Repr !! other.Repr && other.Valid() && other.state == old(other.state)
    {
      hide MergeORState, MergeRegister, ORSet.Valid, ORSet.Separate, ORSet.Uids;
      chunks.Merge(other.chunks);
      entities.Merge(other.entities);
      relations.Merge(other.relations);
      Repr := Repr + chunks.Repr;
      state := MergeDoc(state, old(other.state));
    }

    method ToJson() returns (data: DocJson)
      requires Valid()
      ensures IsJsonOf(data, state)
    {
      var lists: map<string, seq<string>> := map[];
      var todo := chunks.adds.Keys;
      while todo != {}
        invariant todo <= chunks.adds.Keys && lists.Keys == chunks.adds.Keys - todo
        invariant forall e :: e in lists ==> Lists(lists[e], chunks.adds[e].uids)
        decreases todo
      {
        var e :| e in todo;
        var xs := ListOf(chunks.adds[e].uids);
        lists := lists[e := xs];
        todo := todo - {e};
      }
      var removes := ListOf(chunks.removes);
      var metas := map uid | uid in chunks.entries :: MetaJson(chunks.entries[uid].nodeId, chunks.entries[uid].ts);
      var entityJson, relationJson := entities.ToJson(), relations.ToJson();
      data := DocJson(Some(ORSetJson(Some(lists), Some(removes), Some(metas))), Some(entityJson), Some(relationJson));
    }
  }

  // merge(local, remote): a new document, built from an empty one, that shares nothing with either.
  method MergeNew(local: CRDTDocument, remote: CRDTDocument) returns (result: CRDTDocument)
    requires local.Valid() && remote.Valid()
    ensures result.Valid() && fresh(result.Repr)
    ensures result.state == MergeDoc(local.state, remote.state)
  {
    result := new CRDTDocument();
    result.Merge(local);
    MergeIntoEmpty(local.state);
    result.Merge(remote);
  }

  lemma MergeIntoEmpty(d: Doc)
    ensures MergeDoc(EMPTY_DOC, d) == d
  {
    assert MergeAdds(map[], d.chunks.adds).Keys == d.chunks.adds.Keys;
    forall e | e in d.chunks.adds
      ensures MergeAdds(map[], d.chunks.adds)[e] == d.chunks.adds[e]
    {}
    assert MergeAdds(map[], d.chunks.adds) == d.chunks.adds;
    assert MergeRegister(map[], d.entities) == d.entities;
    assert MergeRegister(map[], d.relations) == d.relations;
  }

  // ---------- relay endpoints ----------

  // A frame is JSON text that may fail to parse or to read as a document.
  datatype Frame = Malformed | Payload(doc: Option<DocJson>)

  // A frame without a "doc" key reads as the empty document.
  function Incoming(frame: Frame): Doc
    requires frame.Payload?
  {
    if frame.doc.None? then EMPTY_DOC else Crdt.FromJson(frame.doc.value)
  }

  method Decode(frame: Frame) returns (doc: CRDTDocument)
    requires frame.Payload?
    ensures doc.Valid() && fresh(doc.Repr) && doc.state == Incoming(frame)
  {
    if frame.doc.None? {
      doc := new CRDTDocument();
    } else {
      doc := new CRDTDocument.FromJson(frame.doc.value);
    }
  }

  class RelayServer {
    var doc: CRDTDocument
    var clients: set<nat>

    ghost predicate Valid()
      reads this, doc, doc.Repr
    {
      doc.Valid() && this !in doc.Repr
    }

    constructor ()
      ensures Valid() && fresh(doc.Repr) && doc.state == EMPTY_DOC && clients == {}
    {
      doc := new CRDTDocument();
      clients := {};
    }

    // A client connects: it is counted in before it is sent the merged state.
    method Join(client: nat) returns (seed: Frame)
      requires Valid()
      modifies this`clients
      ensures Valid() && clients == old(clients) + {client}
      ensures seed.Payload? && seed.doc.Some? && IsJsonOf(seed.doc.value, doc.state)
    {
      clients := clients + {client};
      var data := doc.ToJson();
      seed := Payload(Some(data));
    }

    // One inbound frame: a malformed one is dropped, any other is merged and its result broadcast.
    method Receive(frame: Frame) returns (snapshot: Option<Frame>, receivers: set<nat>)
      requires Valid()
      modifies doc.Repr
      ensures Valid() && doc == old(doc) && fresh(doc.Repr - old(doc.Repr))
      ensures snapshot.Some? <==> frame.Payload?
      ensures frame.Malformed? ==> doc.state == old(doc.state) && receivers == {}
      ensures frame.Payload? ==>
        doc.state == MergeDoc(old(doc.state), Incoming(frame)) && receivers == clients
        && snapshot.value.Payload? && snapshot.value.doc.Some? && IsJsonOf(snapshot.value.doc.value, doc.state)
    {
      if frame.Malformed? {
        return None, {};
      }
      var incoming := Decode(frame);
      doc.Merge(incoming);
      var data := doc.ToJson();
      snapshot, receivers := Some(Payload(Some(data))), clients;
    }

    method Leave(client: nat)
      requires Valid()
      modifies this`clients
      ensures Valid() && clients == old(clients) - {client}
    {
      clients := clients - {client};
    }
  }

  class RelayClient {
    var doc: CRDTDocument

    ghost predicate Valid()
      reads this, doc, doc.Repr
    {
      doc.Valid() && this !in doc.Repr
    }

    constructor (doc: CRDTDocument)
      requires doc.Valid()
      ensures Valid() && this.doc == doc
    {
      this.doc := doc;
    }

    method Push() returns (frame: Frame)
      requires Valid()
      ensures frame.Payload? && frame.doc.Some? && IsJsonOf(frame.doc.value, doc.state)
    {
      var data := doc.ToJson();
      frame := Payload(Some(data));
    }

    method Receive(frame: Frame)
      requires Valid()
      modifies doc.Repr
      ensures Valid() && doc == old(doc) && fresh(doc.Repr - old(doc.Repr))
      ensures doc.state == if frame.Malformed? then old(doc.state) else MergeDoc(old(doc.state), Incoming(frame))
    {
      if frame.Payload? {
        var incoming := Decode(frame);
        doc.Merge(incoming);
      }
    }
  }

  // A pushed document, relayed and received, is merged as it was sent.
  lemma FrameCarriesDocument(frame: Frame, d: Doc)
    requires frame.Payload? && frame.doc.Some? && IsJsonOf(frame.doc.value, d) && MetadataKeyed(d.chunks)
    ensures Incoming(frame) == d
  {
    RoundTrip(frame.doc.value, d);
  }
}
