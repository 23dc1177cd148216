/**
 The relay protocol of sera/sync/relay.py as a state machine: replicas edit offline or online,
 push, connect, disconnect (losing frames) and receive; the relay merges, broadcasts and may
 restart empty. Frames arrive in any order.
 */
module Relay {
  import opened Crdt

  type Id = nat

  /**
   pushed: the replica has pushed since its last edit and since it last connected.
   inbox: the frames on their way from the relay to this replica.
   */
  datatype Replica = Replica(doc: Doc, connected: bool, pushed: bool, inbox: multiset<Doc>)

  /**
   uplink: frames on their way to the relay, with their sender.
   pending: snapshots taken under the relay's lock whose broadcast has not gone out yet.
   edits: every edit made so far, with the replica it was made at.
   */
  datatype Net = Net(
    relay: Doc,
    replicas: map<Id, Replica>,
    uplink: multiset<(Id, Doc)>,
    pending: multiset<Doc>,
    edits: seq<(Id, Doc)>)

  datatype Step =
    | LocalEdit(id: Id, edit: Edit)
    | Push(id: Id)
    | RelayReceive(id: Id, frame: Doc)
    | Broadcast(snapshot: Doc)
    | ClientReceive(id: Id, frame: Doc)
    | Connect(id: Id)
    | Disconnect(id: Id, lost: multiset<(Id, Doc)>)
    | RestartRelay

  /**
   What the writers promise: the value of a write is determined by its key and stamp,
   and the metadata of an add by its uid.
   */
  datatype Writers = Writers(
    entity: (string, real, string) -> Value,
    relation: (string, real, string) -> Value,
    meta: string -> ORSetEntry)

  ghost predicate RegisterBy(reg: Register, value: (string, real, string) -> Value) {
    forall key :: key in reg ==> reg[key].value == value(key, reg[key].ts, reg[key].nodeId)
  }

  ghost predicate DocBy(d: Doc, w: Writers) {
    RegisterBy(d.entities, w.entity) && RegisterBy(d.relations, w.relation)
    && forall uid :: uid in d.chunks.entries ==> d.chunks.entries[uid] == w.meta(uid)
  }

  predicate EditBy(edit: Edit, w: Writers) {
    match edit
    case SetEntity(key, entry) => entry.value == w.entity(key, entry.ts, entry.nodeId)
    case SetRelation(key, entry) => entry.value == w.relation(key, entry.ts, entry.nodeId)
    case AddChunk(_, added) => added == w.meta(added.uid)
    case RemoveChunk(_) => true
  }

  predicate Enabled(s: Net, step: Step) {
    match step
    case LocalEdit(id, _) => id in s.replicas
    case Push(id) => id in s.replicas && s.replicas[id].connected
    case RelayReceive(id, frame) => (id, frame) in s.uplink
    case Broadcast(snapshot) => snapshot in s.pending
    case ClientReceive(id, frame) => id in s.replicas && frame in s.replicas[id].inbox
    case Connect(id) => id in s.replicas && !s.replicas[id].connected
    case Disconnect(id, lost) =>
      id in s.replicas && s.replicas[id].connected && lost <= s.uplink && forall m :: m in lost ==> m.0 == id
    case RestartRelay => true
  }

  function Offline(r: Replica): Replica {
    r.(connected := false, pushed := false, inbox := multiset{})
  }

  function Next(s: Net, step: Step): Net
    requires Enabled(s, step)
  {
    match step
    case LocalEdit(id, edit) =>
      var r := s.replicas[id];
      s.(replicas := s.replicas[id := r.(doc := ApplyEdit(r.doc, edit), pushed := false)],
         edits := s.edits + [(id, Delta(r.doc, edit))])
    case Push(id) =>
      var r := s.replicas[id];
      s.(replicas := s.replicas[id := r.(pushed := true)], uplink := s.uplink + multiset{(id, r.doc)})
    case RelayReceive(id, frame) =>
      var merged := MergeDoc(s.relay, frame);
      s.(relay := merged, uplink := s.uplink - multiset{(id, frame)}, pending := s.pending + multiset{merged})
    case Broadcast(snapshot) =>
      s.(replicas := map id | id in s.replicas ::
           if s.replicas[id].connected then
             s.replicas[id].(inbox := s.replicas[id].inbox + multiset{snapshot})
           else s.replicas[id],
         pending := s.pending - multiset{snapshot})
    case ClientReceive(id, frame) =>
      var r := s.replicas[id];
      s.(replicas := s.replicas[id := r.(doc := MergeDoc(r.doc, frame), inbox := r.inbox - multiset{frame})])
    case Connect(id) =>
      s.(replicas := s.replicas[id := s.replicas[id].(connected := true, inbox := multiset{s.relay})])
    case Disconnect(id, lost) =>
      s.(replicas := s.replicas[id := Offline(s.replicas[id])], uplink := s.uplink - lost)
    case RestartRelay =>
      s.(relay := EMPTY_DOC, replicas := map id | id in s.replicas :: Offline(s.replicas[id]),
         uplink := multiset{}, pending := multiset{})
  }

  function Start(ids: set<Id>): Net {
    Net(EMPTY_DOC, map id | id in ids :: Replica(EMPTY_DOC, false, false, multiset{}), multiset{}, multiset{}, [])
  }

  // steps is a run from s in which every edit keeps the writers' promise.
  predicate IsRun(s: Net, steps: seq<Step>, w: Writers)
    decreases |steps|
  {
    steps == []
    || (Enabled(s, steps[0])
        && (steps[0].LocalEdit? ==> EditBy(steps[0].edit, w))
        && IsRun(Next(s, steps[0]), steps[1..], w))
  }

  function Run(s: Net, steps: seq<Step>, w: Writers): Net
    requires IsRun(s, steps, w)
    decreases |steps|
  {
    if steps == [] then s else Run(Next(s, steps[0]), steps[1..], w)
  }

  function JoinAll(edits: seq<(Id, Doc)>): Doc {
    if edits == [] then EMPTY_DOC else MergeDoc(JoinAll(edits[..|edits| - 1]), edits[|edits| - 1].1)
  }

  // Nothing is on its way, and every replica is connected and has pushed since its last edit.
  predicate Quiescent(s: Net) {
    s.uplink == multiset{} && s.pending == multiset{}
    && forall id :: id in s.replicas ==>
         s.replicas[id].connected && s.replicas[id].pushed && s.replicas[id].inbox == multiset{}
  }

  // ---------- the invariant ----------

  ghost predicate Sound(d: Doc, w: Writers, total: Doc) {
    DocBy(d, w) && DocLeq(d, total) && RemovesObserved(d.chunks)
  }

  // What the replica holds has reached the relay, or the push that carries it is on its way.
  ghost predicate Uploaded(s: Net, id: Id, d: Doc) {
    DocLeq(d, s.relay) || exists frame :: (id, frame) in s.uplink && DocLeq(d, MergeDoc(s.relay, frame))
  }

  // The relay's document has reached the replica, or a copy of it is on its way.
  ghost predicate Downloaded(s: Net, r: Replica) {
    DocLeq(s.relay, r.doc) || s.relay in r.inbox || s.relay in s.pending
  }

  ghost predicate ReplicaInv(s: Net, w: Writers, total: Doc, id: Id, r: Replica) {
    Sound(r.doc, w, total)
    && (forall frame :: frame in r.inbox ==> Sound(frame, w, total) && DocLeq(frame, s.relay))
    && (r.pushed ==> r.connected && Uploaded(s, id, r.doc))
    && (r.connected ==> Downloaded(s, r))
  }

  ghost predicate FramesInv(s: Net, w: Writers, total: Doc) {
    Sound(s.relay, w, total)
    && (forall m :: m in s.uplink ==> Sound(m.1, w, total))
    && (forall snapshot :: snapshot in s.pending ==> Sound(snapshot, w, total) && DocLeq(snapshot, s.relay))
  }

  // Every edit is still held by the replica it was made at.
  ghost predicate EditsHeld(s: Net) {
    forall i :: 0 <= i < |s.edits| ==>
      s.edits[i].0 in s.replicas && DocLeq(s.edits[i].1, s.replicas[s.edits[i].0].doc)
  }

  ghost predicate Inv(s: Net, w: Writers) {
    var total := JoinAll(s.edits);
    DocBy(total, w) && RemovesObserved(total.chunks)
    && FramesInv(s, w, total)
    && (forall id :: id in s.replicas ==> ReplicaInv(s, w, total, id, s.replicas[id]))
    && EditsHeld(s)
  }

  // ---------- facts about documents the writers made ----------

  lemma WrittenDocsAgree(a: Doc, b: Doc, w: Writers)
    requires DocBy(a, w) && DocBy(b, w)
    ensures DocsAgree(a, b)
  {}

  lemma MergeOfWritten(a: Doc, b: Doc, w: Writers)
    requires DocBy(a, w) && DocBy(b, w)
    ensures DocBy(MergeDoc(a, b), w)
    ensures DocLeq(a, MergeDoc(a, b)) && DocLeq(b, MergeDoc(a, b))
  {
    WrittenDocsAgree(a, b, w);
    MergeBounds(a, b);
  }

  lemma MergeOfSound(a: Doc, b: Doc, w: Writers, total: Doc)
    requires Sound(a, w, total) && Sound(b, w, total)
    ensures Sound(MergeDoc(a, b), w, total)
    ensures DocLeq(a, MergeDoc(a, b)) && DocLeq(b, MergeDoc(a, b))
  {
    MergeOfWritten(a, b, w);
    MergeIsLeast(a, b, total);
    MergeKeepsRemovesObserved(a.chunks, b.chunks);
  }

  lemma DeltaIsWritten(d: Doc, edit: Edit, w: Writers)
    requires EditBy(edit, w)
    ensures DocBy(Delta(d, edit), w) && RemovesObserved(Delta(d, edit).chunks)
  {
    var delta := Delta(d, edit).chunks;
    forall uid | uid in delta.removes
      ensures exists element :: element in delta.adds && uid in delta.adds[element]
    {
      assert edit.RemoveChunk? && edit.element in delta.adds && uid in delta.adds[edit.element];
    }
  }

  lemma EmptyIsSound(total: Doc, w: Writers)
    ensures DocLeq(EMPTY_DOC, total) && Sound(EMPTY_DOC, w, total)
  {}

  lemma SoundGrows(d: Doc, w: Writers, total: Doc, total': Doc)
    requires Sound(d, w, total) && DocLeq(total, total')
    ensures Sound(d, w, total')
  {
    DocLeqTransitive(d, total, total');
  }

  lemma FramesGrow(s: Net, w: Writers, total: Doc, total': Doc)
    requires FramesInv(s, w, total) && DocLeq(total, total')
    ensures FramesInv(s, w, total')
  {
    forall d | Sound(d, w, total)
      ensures Sound(d, w, total')
    {
      SoundGrows(d, w, total, total');
    }
  }

  lemma ReplicaGrows(s: Net, w: Writers, total: Doc, total': Doc, id: Id, r: Replica)
    requires ReplicaInv(s, w, total, id, r) && DocLeq(total, total')
    ensures ReplicaInv(s, w, total', id, r)
  {
    forall d | Sound(d, w, total)
      ensures Sound(d, w, total')
    {
      SoundGrows(d, w, total, total');
    }
  }

  // What one edit does to the join of all edits and to the document it is made in.
  lemma EditOfSound(d: Doc, edit: Edit, w: Writers, total: Doc, total': Doc)
    requires EditBy(edit, w) && DocBy(total, w) && RemovesObserved(total.chunks)
    requires Sound(d, w, total) && total' == MergeDoc(total, Delta(d, edit))
    ensures DocBy(total', w) && RemovesObserved(total'.chunks) && DocLeq(total, total')
    ensures Sound(ApplyEdit(d, edit), w, total')
    ensures DocLeq(d, ApplyEdit(d, edit)) && DocLeq(Delta(d, edit), ApplyEdit(d, edit))
  {
    var delta := Delta(d, edit);
    DeltaIsWritten(d, edit, w);
    MergeOfWritten(total, delta, w);
    MergeKeepsRemovesObserved(total.chunks, delta.chunks);
    SoundGrows(d, w, total, total');
    MergeOfSound(d, delta, w, total');
    EditIsMerge(d, edit);
  }

  // ---------- each step keeps the invariant ----------

  lemma EditKeepsInv(s: Net, w: Writers, id: Id, edit: Edit)
    requires Inv(s, w) && Enabled(s, LocalEdit(id, edit)) && EditBy(edit, w)
    ensures Inv(Next(s, LocalEdit(id, edit)), w)
  {
    hide DocLeq, Sound, MergeDoc, DocBy, RemovesObserved, ApplyEdit, Delta, ReplicaInv, FramesInv, EditsHeld, JoinAll;
    var s' := Next(s, LocalEdit(id, edit));
    EditedTotal(s, w, id, edit);
    FramesGrow(s, w, JoinAll(s.edits), JoinAll(s'.edits));
    SameFrames(s, s', w, JoinAll(s'.edits));
    forall other | other in s'.replicas
      ensures ReplicaInv(s', w, JoinAll(s'.edits), other, s'.replicas[other])
    {
      EditKeepsReplica(s, w, id, edit, other);
    }
    EditKeepsHeld(s, w, id, edit);
  }

  lemma SameFrames(s: Net, s': Net, w: Writers, total: Doc)
    requires FramesInv(s, w, total) && s'.relay == s.relay && s'.uplink == s.uplink && s'.pending == s.pending
    ensures FramesInv(s', w, total)
  {
    hide Sound, DocLeq;
  }

  lemma EditedTotal(s: Net, w: Writers, id: Id, edit: Edit)
    requires Inv(s, w) && Enabled(s, LocalEdit(id, edit)) && EditBy(edit, w)
    ensures var s' := Next(s, LocalEdit(id, edit));
            var total, total' := JoinAll(s.edits), JoinAll(s'.edits);
      && id in s'.replicas && total' == MergeDoc(total, Delta(s.replicas[id].doc, edit))
      && DocBy(total', w) && RemovesObserved(total'.chunks) && DocLeq(total, total')
      && Sound(s'.replicas[id].doc, w, total') && DocLeq(s.replicas[id].doc, s'.replicas[id].doc)
      && DocLeq(Delta(s.replicas[id].doc, edit), s'.replicas[id].doc)
  {
    hide DocLeq, Sound, MergeDoc, DocBy, RemovesObserved, ApplyEdit, Delta, FramesInv, EditsHeld, ReplicaInv;
    var s' := Next(s, LocalEdit(id, edit));
    var r := s.replicas[id];
    assert s'.edits[..|s'.edits| - 1] == s.edits;
    ReplicaIsSound(s, w, id);
    EditOfSound(r.doc, edit, w, JoinAll(s.edits), JoinAll(s'.edits));
  }

  lemma EditKeepsReplica(s: Net, w: Writers, id: Id, edit: Edit, other: Id)
    requires Inv(s, w) && Enabled(s, LocalEdit(id, edit)) && EditBy(edit, w) && other in s.replicas
    ensures var s' := Next(s, LocalEdit(id, edit));
      other in s'.replicas && ReplicaInv(s', w, JoinAll(s'.edits), other, s'.replicas[other])
  {
    hide DocLeq, Sound, MergeDoc, DocBy, RemovesObserved, ApplyEdit, Delta, FramesInv, EditsHeld, JoinAll;
    var s' := Next(s, LocalEdit(id, edit));
    EditedTotal(s, w, id, edit);
    assert ReplicaInv(s, w, JoinAll(s.edits), other, s.replicas[other]);
    ReplicaGrows(s, w, JoinAll(s.edits), JoinAll(s'.edits), other, s.replicas[other]);
    if other == id && DocLeq(s.relay, s.replicas[id].doc) {
      DocLeqTransitive(s.relay, s.replicas[id].doc, s'.replicas[id].doc);
    }
  }

  lemma EditKeepsHeld(s: Net, w: Writers, id: Id, edit: Edit)
    requires Inv(s, w) && Enabled(s, LocalEdit(id, edit)) && EditBy(edit, w)
    ensures EditsHeld(Next(s, LocalEdit(id, edit)))
  {
    hide DocLeq, Sound, MergeDoc, DocBy, RemovesObserved, ApplyEdit, Delta, FramesInv, ReplicaInv, JoinAll;
    var s' := Next(s, LocalEdit(id, edit));
    EditedTotal(s, w, id, edit);
    forall i | 0 <= i < |s'.edits|
      ensures s'.edits[i].0 in s'.replicas && DocLeq(s'.edits[i].1, s'.replicas[s'.edits[i].0].doc)
    {
      if i < |s.edits| && s.edits[i].0 == id {
        DocLeqTransitive(s.edits[i].1, s.replicas[id].doc, s'.replicas[id].doc);
      }
    }
  }

  lemma PushKeepsInv(s: Net, w: Writers, id: Id)
    requires Inv(s, w) && Enabled(s, Push(id))
    ensures Inv(Next(s, Push(id)), w)
  {
    hide DocLeq, Sound, MergeDoc, DocBy, RemovesObserved, ReplicaInv;
    var s' := Next(s, Push(id));
    ReplicaIsSound(s, w, id);
    forall other | other in s'.replicas
      ensures ReplicaInv(s', w, JoinAll(s.edits), other, s'.replicas[other])
    {
      PushKeepsReplica(s, w, id, other);
    }
  }

  lemma ReplicaIsSound(s: Net, w: Writers, id: Id)
    requires Inv(s, w) && id in s.replicas
    ensures Sound(s.replicas[id].doc, w, JoinAll(s.edits)) && Sound(s.relay, w, JoinAll(s.edits))
  {
    hide DocLeq, Sound, MergeDoc, DocBy, RemovesObserved;
    assert ReplicaInv(s, w, JoinAll(s.edits), id, s.replicas[id]);
  }

  lemma PushKeepsReplica(s: Net, w: Writers, id: Id, other: Id)
    requires Inv(s, w) && Enabled(s, Push(id)) && other in s.replicas
    ensures var s' := Next(s, Push(id));
      other in s'.replicas && ReplicaInv(s', w, JoinAll(s.edits), other, s'.replicas[other])
  {
    hide DocLeq, Sound, MergeDoc, DocBy, RemovesObserved, FramesInv, EditsHeld;
    var s', r := Next(s, Push(id)), s.replicas[id];
    assert (id, r.doc) in s'.uplink;
    ReplicaIsSound(s, w, id);
    MergeOfSound(s.relay, r.doc, w, JoinAll(s.edits));
    assert ReplicaInv(s, w, JoinAll(s.edits), other, s.replicas[other]);
  }

  // A push that is on its way still carries the replica's document once the relay has grown,
  // and the relay has it once the push is merged.
  lemma UploadedAfterMerge(s: Net, s': Net, w: Writers, total: Doc, id: Id, d: Doc, from: Id, frame: Doc)
    requires FramesInv(s, w, total) && (from, frame) in s.uplink
    requires s'.relay == MergeDoc(s.relay, frame) && s'.uplink == s.uplink - multiset{(from, frame)}
    requires Uploaded(s, id, d)
    ensures Uploaded(s', id, d)
  {
    hide DocLeq, Sound, MergeDoc, DocBy, RemovesObserved;
    MergeOfSound(s.relay, frame, w, total);
    if DocLeq(d, s.relay) {
      DocLeqTransitive(d, s.relay, s'.relay);
    } else {
      var carrier :| (id, carrier) in s.uplink && DocLeq(d, MergeDoc(s.relay, carrier));
      if (id, carrier) in s'.uplink {
        MergeOfSound(s'.relay, carrier, w, total);
        DocLeqTransitive(s.relay, s'.relay, MergeDoc(s'.relay, carrier));
        MergeIsLeast(s.relay, carrier, MergeDoc(s'.relay, carrier));
        DocLeqTransitive(d, MergeDoc(s.relay, carrier), MergeDoc(s'.relay, carrier));
      } else {
        assert (id, carrier) == (from, frame);
      }
    }
  }

  lemma RelayReceiveKeepsInv(s: Net, w: Writers, from: Id, frame: Doc)
    requires Inv(s, w) && Enabled(s, RelayReceive(from, frame))
    ensures Inv(Next(s, RelayReceive(from, frame)), w)
  {
    hide DocLeq, Sound, MergeDoc, DocBy, RemovesObserved;
    var s' := Next(s, RelayReceive(from, frame));
    var total := JoinAll(s.edits);
    MergeOfSound(s.relay, frame, w, total);
    DocLeqReflexive(s'.relay);
    forall d | DocLeq(d, s.relay)
      ensures DocLeq(d, s'.relay)
    {
      DocLeqTransitive(d, s.relay, s'.relay);
    }
    forall id | id in s'.replicas
      ensures ReplicaInv(s', w, total, id, s'.replicas[id])
    {
      var r := s.replicas[id];
      assert ReplicaInv(s, w, total, id, r);
      if r.pushed {
        UploadedAfterMerge(s, s', w, total, id, r.doc, from, frame);
      }
    }
  }

  // A replica whose document is kept, with more frames on their way to it.
  lemma ReplicaKept(s: Net, s': Net, w: Writers, total: Doc, id: Id, r: Replica, r': Replica)
    requires FramesInv(s, w, total) && ReplicaInv(s, w, total, id, r)
    requires s'.relay == s.relay && s'.uplink == s.uplink
    requires r'.(inbox := r.inbox) == r && r.inbox <= r'.inbox
    requires forall frame :: frame in r'.inbox ==> frame in r.inbox || frame in s.pending
    requires s'.pending == s.pending
          || (r.connected ==> forall snapshot :: snapshot in s.pending ==>
              snapshot in s'.pending || snapshot in r'.inbox)
    ensures ReplicaInv(s', w, total, id, r')
  {
    hide DocLeq, Sound, MergeDoc, DocBy, RemovesObserved, JoinAll;
  }

  lemma BroadcastKeepsInv(s: Net, w: Writers, snapshot: Doc)
    requires Inv(s, w) && Enabled(s, Broadcast(snapshot))
    ensures Inv(Next(s, Broadcast(snapshot)), w)
  {
    hide DocLeq, Sound, MergeDoc, DocBy, RemovesObserved, JoinAll, ReplicaInv;
    var s' := Next(s, Broadcast(snapshot));
    var total := JoinAll(s.edits);
    forall id | id in s'.replicas
      ensures ReplicaInv(s', w, total, id, s'.replicas[id])
    {
      ReplicaKept(s, s', w, total, id, s.replicas[id], s'.replicas[id]);
    }
  }

  // The replica that receives a frame.
  lemma ReceiverKept(s: Net, w: Writers, total: Doc, id: Id, r: Replica, frame: Doc)
    requires FramesInv(s, w, total) && ReplicaInv(s, w, total, id, r) && frame in r.inbox
    ensures DocLeq(r.doc, MergeDoc(r.doc, frame))
    ensures ReplicaInv(s, w, total, id, r.(doc := MergeDoc(r.doc, frame), inbox := r.inbox - multiset{frame}))
  {
    hide DocLeq, Sound, MergeDoc, DocBy, RemovesObserved, JoinAll;
    MergeOfSound(r.doc, frame, w, total);
    if r.pushed {
      UploadedAfterReceive(s, w, total, id, r.doc, frame);
    }
    if DocLeq(s.relay, r.doc) {
      DocLeqTransitive(s.relay, r.doc, MergeDoc(r.doc, frame));
    }
  }

  lemma ClientReceiveKeepsInv(s: Net, w: Writers, id: Id, frame: Doc)
    requires Inv(s, w) && Enabled(s, ClientReceive(id, frame))
    ensures Inv(Next(s, ClientReceive(id, frame)), w)
  {
    hide DocLeq, Sound, MergeDoc, DocBy, RemovesObserved, JoinAll, ReplicaInv;
    var s' := Next(s, ClientReceive(id, frame));
    var total := JoinAll(s.edits);
    ReceiverKept(s, w, total, id, s.replicas[id], frame);
    forall other | other in s'.replicas
      ensures ReplicaInv(s', w, total, other, s'.replicas[other])
    {
      ReplicaInvOfParts(s, s', w, total, other, s'.replicas[other]);
    }
    forall i | 0 <= i < |s'.edits|
      ensures s'.edits[i].0 in s'.replicas && DocLeq(s'.edits[i].1, s'.replicas[s'.edits[i].0].doc)
    {
      if s.edits[i].0 == id {
        DocLeqTransitive(s.edits[i].1, s.replicas[id].doc, s'.replicas[id].doc);
      }
    }
  }

  // The invariant of one replica looks only at that replica, the relay and the frames to the relay.
  lemma ReplicaInvOfParts(s: Net, s': Net, w: Writers, total: Doc, id: Id, r: Replica)
    requires s'.relay == s.relay && s'.uplink == s.uplink && s'.pending == s.pending
    requires ReplicaInv(s, w, total, id, r)
    ensures ReplicaInv(s', w, total, id, r)
  {}

  lemma UploadedAfterReceive(s: Net, w: Writers, total: Doc, id: Id, d: Doc, frame: Doc)
    requires FramesInv(s, w, total) && Uploaded(s, id, d) && DocLeq(frame, s.relay)
    ensures Uploaded(s, id, MergeDoc(d, frame))
  {
    hide DocLeq, Sound, MergeDoc, DocBy, RemovesObserved;
    if DocLeq(d, s.relay) {
      MergeIsLeast(d, frame, s.relay);
    } else {
      var carrier :| (id, carrier) in s.uplink && DocLeq(d, MergeDoc(s.relay, carrier));
      MergeOfSound(s.relay, carrier, w, total);
      DocLeqTransitive(frame, s.relay, MergeDoc(s.relay, carrier));
      MergeIsLeast(d, frame, MergeDoc(s.relay, carrier));
    }
  }

  lemma ConnectKeepsInv(s: Net, w: Writers, id: Id)
    requires Inv(s, w) && Enabled(s, Connect(id))
    ensures Inv(Next(s, Connect(id)), w)
  {
    hide DocLeq, Sound, MergeDoc, DocBy, RemovesObserved, ReplicaInv;
    var s' := Next(s, Connect(id));
    forall other | other in s'.replicas
      ensures ReplicaInv(s', w, JoinAll(s.edits), other, s'.replicas[other])
    {
      ConnectKeepsReplica(s, w, id, other);
    }
  }

  lemma ConnectKeepsReplica(s: Net, w: Writers, id: Id, other: Id)
    requires Inv(s, w) && Enabled(s, Connect(id)) && other in s.replicas
    ensures var s' := Next(s, Connect(id));
      other in s'.replicas && ReplicaInv(s', w, JoinAll(s.edits), other, s'.replicas[other])
  {
    hide DocLeq, Sound, MergeDoc, DocBy, RemovesObserved, EditsHeld;
    DocLeqReflexive(s.relay);
    assert ReplicaInv(s, w, JoinAll(s.edits), other, s.replicas[other]);
  }

  lemma DisconnectKeepsInv(s: Net, w: Writers, id: Id, lost: multiset<(Id, Doc)>)
    requires Inv(s, w) && Enabled(s, Disconnect(id, lost))
    ensures Inv(Next(s, Disconnect(id, lost)), w)
  {
    hide DocLeq, Sound, MergeDoc, DocBy, RemovesObserved, ReplicaInv;
    var s' := Next(s, Disconnect(id, lost));
    forall other | other in s'.replicas
      ensures ReplicaInv(s', w, JoinAll(s.edits), other, s'.replicas[other])
    {
      DisconnectKeepsReplica(s, w, id, lost, other);
    }
  }

  lemma DisconnectKeepsReplica(s: Net, w: Writers, id: Id, lost: multiset<(Id, Doc)>, other: Id)
    requires Inv(s, w) && Enabled(s, Disconnect(id, lost)) && other in s.replicas
    ensures var s' := Next(s, Disconnect(id, lost));
      other in s'.replicas && ReplicaInv(s', w, JoinAll(s.edits), other, s'.replicas[other])
  {
    hide DocLeq, Sound, MergeDoc, DocBy, RemovesObserved, FramesInv, EditsHeld;
    var s' := Next(s, Disconnect(id, lost));
    assert ReplicaInv(s, w, JoinAll(s.edits), other, s.replicas[other]);
    forall frame | (other, frame) in s.uplink && other != id
      ensures (other, frame) in s'.uplink
    {
      assert (other, frame) !in lost;
    }
  }

  // The relay is not a source of truth: it may lose everything.
  lemma RestartKeepsInv(s: Net, w: Writers)
    requires Inv(s, w)
    ensures Inv(Next(s, RestartRelay), w)
  {
    hide DocLeq, Sound, MergeDoc, DocBy, RemovesObserved, JoinAll;
    var s' := Next(s, RestartRelay);
    var total := JoinAll(s.edits);
    EmptyIsSound(total, w);
    forall id | id in s'.replicas
      ensures ReplicaInv(s', w, total, id, s'.replicas[id])
    {
      assert ReplicaInv(s, w, total, id, s.replicas[id]);
    }
  }

  lemma StepKeepsInv(s: Net, w: Writers, step: Step)
    requires Inv(s, w) && Enabled(s, step) && (step.LocalEdit? ==> EditBy(step.edit, w))
    ensures Inv(Next(s, step), w)
  {
    match step
    case LocalEdit(id, edit) => EditKeepsInv(s, w, id, edit);
    case Push(id) => PushKeepsInv(s, w, id);
    case RelayReceive(id, frame) => RelayReceiveKeepsInv(s, w, id, frame);
    case Broadcast(snapshot) => BroadcastKeepsInv(s, w, snapshot);
    case ClientReceive(id, frame) => ClientReceiveKeepsInv(s, w, id, frame);
    case Connect(id) => ConnectKeepsInv(s, w, id);
    case Disconnect(id, lost) => DisconnectKeepsInv(s, w, id, lost);
    case RestartRelay => RestartKeepsInv(s, w);
  }

  lemma {:induction false} RunKeepsInv(s: Net, steps: seq<Step>, w: Writers)
    requires Inv(s, w) && IsRun(s, steps, w)
    ensures Inv(Run(s, steps, w), w)
    decreases |steps|
  {
    if steps != [] {
      StepKeepsInv(s, w, steps[0]);
      RunKeepsInv(Next(s, steps[0]), steps[1..], w);
    }
  }

  lemma StartInv(ids: set<Id>, w: Writers)
    ensures Inv(Start(ids), w)
  {
    EmptyIsSound(EMPTY_DOC, w);
  }

  // ---------- what holds of every run ----------

  // Convergence is monotone: whatever is on its way to a replica is below the relay's document,
  // and nothing anywhere goes beyond the join of all edits.
  lemma SnapshotsBelowRelay(ids: set<Id>, steps: seq<Step>, w: Writers)
    requires IsRun(Start(ids), steps, w)
    ensures var s := Run(Start(ids), steps, w);
      && (forall snapshot :: snapshot in s.pending ==> DocLeq(snapshot, s.relay))
      && (forall id, frame :: id in s.replicas && frame in s.replicas[id].inbox ==> DocLeq(frame, s.relay))
      && DocLeq(s.relay, JoinAll(s.edits))
      && (forall id :: id in s.replicas ==> DocLeq(s.replicas[id].doc, JoinAll(s.edits)))
  {
    hide DocLeq, MergeDoc, DocBy, RemovesObserved;
    StartInv(ids, w);
    RunKeepsInv(Start(ids), steps, w);
    var s := Run(Start(ids), steps, w);
    forall id | id in s.replicas
      ensures ReplicaInv(s, w, JoinAll(s.edits), id, s.replicas[id])
    {}
  }

  // The join of what one set of writers wrote is above every edit...
  lemma {:induction false} JoinIsAbove(edits: seq<(Id, Doc)>, w: Writers)
    requires forall i :: 0 <= i < |edits| ==> DocBy(edits[i].1, w)
    ensures DocBy(JoinAll(edits), w)
    ensures forall i :: 0 <= i < |edits| ==> DocLeq(edits[i].1, JoinAll(edits))
  {
    hide DocLeq, MergeDoc, DocBy;
    if edits == [] {
      EmptyIsBy(w);
    } else {
      var front, last := edits[..|edits| - 1], edits[|edits| - 1].1;
      forall i | 0 <= i < |front| ensures DocBy(front[i].1, w) {
        assert front[i] == edits[i];
      }
      JoinIsAbove(front, w);
      MergeOfWritten(JoinAll(front), last, w);
      forall i | 0 <= i < |edits| ensures DocLeq(edits[i].1, JoinAll(edits)) {
        if i < |front| {
          assert front[i] == edits[i];
          DocLeqTransitive(edits[i].1, JoinAll(front), JoinAll(edits));
        }
      }
    }
  }

  lemma EmptyIsBy(w: Writers)
    ensures DocBy(EMPTY_DOC, w)
  {}

  // ...and below every document that is.
  lemma {:induction false} JoinIsLeast(edits: seq<(Id, Doc)>, w: Writers, bound: Doc)
    requires forall i :: 0 <= i < |edits| ==> DocBy(edits[i].1, w)
    ensures forall i :: 0 <= i < |edits| ==> DocLeq(edits[i].1, JoinAll(edits))
    ensures DocLeq(JoinAll(edits), bound) <==> forall i :: 0 <= i < |edits| ==> DocLeq(edits[i].1, bound)
  {
    hide DocLeq, MergeDoc, DocBy;
    JoinIsAbove(edits, w);
    if DocLeq(JoinAll(edits), bound) {
      forall i | 0 <= i < |edits| ensures DocLeq(edits[i].1, bound) {
        DocLeqTransitive(edits[i].1, JoinAll(edits), bound);
      }
    }
    if forall i :: 0 <= i < |edits| ==> DocLeq(edits[i].1, bound) {
      JoinIsBelow(edits, bound);
    }
  }

  lemma {:induction false} JoinIsBelow(edits: seq<(Id, Doc)>, bound: Doc)
    requires forall i :: 0 <= i < |edits| ==> DocLeq(edits[i].1, bound)
    ensures DocLeq(JoinAll(edits), bound)
  {
    hide DocLeq, MergeDoc;
    if edits == [] {
      EmptyDocIsLeast(bound);
    } else {
      JoinIsBelow(edits[..|edits| - 1], bound);
      MergeIsLeast(JoinAll(edits[..|edits| - 1]), edits[|edits| - 1].1, bound);
    }
  }

  lemma EmptyDocIsLeast(d: Doc)
    ensures DocLeq(EMPTY_DOC, d)
  {}

  lemma QuiescentMeansConverged(s: Net, w: Writers)
    requires Inv(s, w) && Quiescent(s)
    ensures forall id :: id in s.replicas ==> s.replicas[id].doc == s.relay
    ensures s.relay == JoinAll(s.edits)
  {
    hide DocLeq, MergeDoc, DocBy, RemovesObserved;
    var total := JoinAll(s.edits);
    forall id | id in s.replicas
      ensures s.replicas[id].doc == s.relay
    {
      assert ReplicaInv(s, w, total, id, s.replicas[id]);
      DocLeqAntisymmetric(s.replicas[id].doc, s.relay);
    }
    forall i | 0 <= i < |s.edits|
      ensures DocLeq(s.edits[i].1, s.relay)
    {}
    JoinIsBelow(s.edits, s.relay);
    DocLeqAntisymmetric(s.relay, total);
  }

  /**
   Convergence. In every run, once every replica is connected and has pushed since its last edit
   and nothing is on its way, all replicas hold the relay's document, and it is the join of all edits.
   */
  lemma Convergence(ids: set<Id>, steps: seq<Step>, w: Writers)
    requires IsRun(Start(ids), steps, w)
    requires Quiescent(Run(Start(ids), steps, w))
    ensures var s := Run(Start(ids), steps, w);
      s.relay == JoinAll(s.edits) && forall id :: id in s.replicas ==> s.replicas[id].doc == JoinAll(s.edits)
  {
    hide DocLeq, MergeDoc, DocBy, RemovesObserved;
    StartInv(ids, w);
    RunKeepsInv(Start(ids), steps, w);
    QuiescentMeansConverged(Run(Start(ids), steps, w), w);
  }

  // ---------- adds win ----------

  ghost predicate SomeEditAdds(edits: seq<(Id, Doc)>, element: string, uid: string) {
    exists i :: 0 <= i < |edits| && uid in UidsOf(edits[i].1.chunks.adds, element)
  }

  ghost predicate SomeEditRemoves(edits: seq<(Id, Doc)>, uid: string) {
    exists i :: 0 <= i < |edits| && uid in edits[i].1.chunks.removes
  }

  lemma {:induction false} JoinedChunks(edits: seq<(Id, Doc)>, element: string, uid: string)
    ensures uid in UidsOf(JoinAll(edits).chunks.adds, element) <==> SomeEditAdds(edits, element, uid)
    ensures uid in JoinAll(edits).chunks.removes <==> SomeEditRemoves(edits, uid)
  {
    if edits != [] {
      var before, last := edits[..|edits| - 1], edits[|edits| - 1].1;
      JoinedChunks(before, element, uid);
      assert forall i :: 0 <= i < |before| ==> before[i] == edits[i];
      UidsAfterMerge(JoinAll(before).chunks.adds, last.chunks.adds, element);
      assert edits[|before|].1 == last;
    }
  }

  // Once converged, a chunk is present exactly when some add of it was observed by no removal.
  lemma ConvergedChunks(ids: set<Id>, steps: seq<Step>, w: Writers, id: Id, element: string)
    requires IsRun(Start(ids), steps, w) && Quiescent(Run(Start(ids), steps, w))
             && id in Run(Start(ids), steps, w).replicas
    ensures var s := Run(Start(ids), steps, w);
      Contains(s.replicas[id].doc.chunks, element) <==>
      exists uid :: SomeEditAdds(s.edits, element, uid) && !SomeEditRemoves(s.edits, uid)
  {
    hide *;
    var s := Run(Start(ids), steps, w);
    Convergence(ids, steps, w);
    ContainsOfJoin(s.edits, element);
  }

  lemma ContainsOfJoin(edits: seq<(Id, Doc)>, element: string)
    ensures Contains(JoinAll(edits).chunks, element) <==>
            exists uid :: SomeEditAdds(edits, element, uid) && !SomeEditRemoves(edits, uid)
  {
    hide MergeDoc, JoinAll, SomeEditAdds, SomeEditRemoves;
    var joined := JoinAll(edits).chunks;
    if Contains(joined, element) {
      var uid :| uid in UidsOf(joined.adds, element) - joined.removes;
      JoinedChunks(edits, element, uid);
    }
    if uid :| SomeEditAdds(edits, element, uid) && !SomeEditRemoves(edits, uid) {
      JoinedChunks(edits, element, uid);
      assert uid in UidsOf(joined.adds, element) - joined.removes;
    }
  }

  function Part(d: Doc, relations: bool): Register {
    if relations then d.relations else d.entities
  }

  ghost predicate SomeEditWrites(edits: seq<(Id, Doc)>, relations: bool, key: string, entry: LWWEntry) {
    exists i :: 0 <= i < |edits| && key in Part(edits[i].1, relations) && Part(edits[i].1, relations)[key] == entry
  }

  lemma {:induction false} JoinedEntryIsWritten(edits: seq<(Id, Doc)>, relations: bool, key: string)
    requires key in Part(JoinAll(edits), relations)
    ensures SomeEditWrites(edits, relations, key, Part(JoinAll(edits), relations)[key])
  {
    hide LwwWins;
    var before, last := edits[..|edits| - 1], edits[|edits| - 1].1;
    if key in Part(last, relations) {
      assert SomeEditWrites(edits, relations, key, Part(last, relations)[key]);
    }
    if key in Part(JoinAll(before), relations) {
      JoinedEntryIsWritten(before, relations, key);
      var i :| 0 <= i < |before| && key in Part(before[i].1, relations)
            && Part(before[i].1, relations)[key] == Part(JoinAll(before), relations)[key];
      assert before[i] == edits[i];
    }
    if key in Part(JoinAll(before), relations) && key in Part(last, relations) {
      LwwWinsIsNewest(Part(last, relations)[key], Part(JoinAll(before), relations)[key]);
    }
  }

  // Once converged, a key holds the newest entry that was written for it.
  lemma ConvergedRegisters(ids: set<Id>, steps: seq<Step>, w: Writers, id: Id, relations: bool, key: string)
    requires IsRun(Start(ids), steps, w) && Quiescent(Run(Start(ids), steps, w))
             && id in Run(Start(ids), steps, w).replicas
    ensures var s := Run(Start(ids), steps, w);
            var part := Part(s.replicas[id].doc, relations);
      && (key in part <==> exists entry :: SomeEditWrites(s.edits, relations, key, entry))
      && (key in part ==>
            && SomeEditWrites(s.edits, relations, key, part[key])
            && forall entry :: SomeEditWrites(s.edits, relations, key, entry) ==> EntryLeq(entry, part[key]))
  {
    hide *;
    var s := Run(Start(ids), steps, w);
    StartInv(ids, w);
    RunKeepsInv(Start(ids), steps, w);
    Convergence(ids, steps, w);
    var part := Part(s.replicas[id].doc, relations);
    if key in part {
      JoinedEntryIsWritten(s.edits, relations, key);
    }
    forall entry | SomeEditWrites(s.edits, relations, key, entry)
      ensures key in part && EntryLeq(entry, part[key])
    {
      WrittenIsBelow(s, w, relations, key, entry);
    }
  }

  lemma WrittenIsBelow(s: Net, w: Writers, relations: bool, key: string, entry: LWWEntry)
    requires Inv(s, w) && Quiescent(s) && SomeEditWrites(s.edits, relations, key, entry)
    ensures var part := Part(JoinAll(s.edits), relations); key in part && EntryLeq(entry, part[key])
  {
    hide MergeDoc, DocBy, RemovesObserved, JoinAll, ReplicaInv, FramesInv, Older;
    QuiescentMeansConverged(s, w);
    var i :| 0 <= i < |s.edits| && key in Part(s.edits[i].1, relations) && Part(s.edits[i].1, relations)[key] == entry;
    assert DocLeq(s.edits[i].1, s.replicas[s.edits[i].0].doc);
  }

  // No removal along the run happens at a replica that has observed uid under the removed element.
  predicate NeverRemoved(s: Net, steps: seq<Step>, w: Writers, uid: string)
    requires IsRun(s, steps, w)
    decreases |steps|
  {
    steps != [] ==>
      && (steps[0].LocalEdit? && steps[0].edit.RemoveChunk? ==>
            uid !in UidsOf(s.replicas[steps[0].id].doc.chunks.adds, steps[0].edit.element))
      && NeverRemoved(Next(s, steps[0]), steps[1..], w, uid)
  }

  lemma {:induction false} UnobservedAddIsNotRemoved(s: Net, steps: seq<Step>, w: Writers, uid: string)
    requires IsRun(s, steps, w) && NeverRemoved(s, steps, w, uid)
    requires uid !in JoinAll(s.edits).chunks.removes
    ensures uid !in JoinAll(Run(s, steps, w).edits).chunks.removes
    decreases |steps|
  {
    if steps != [] {
      var s' := Next(s, steps[0]);
      if steps[0].LocalEdit? {
        assert s'.edits[..|s'.edits| - 1] == s.edits;
      }
      UnobservedAddIsNotRemoved(s', steps[1..], w, uid);
    }
  }

  // A replica never forgets an add: edits and merges only bring more.
  lemma StepKeepsUids(s: Net, step: Step, id: Id, element: string)
    requires Enabled(s, step) && id in s.replicas
    ensures id in Next(s, step).replicas
    ensures UidsOf(s.replicas[id].doc.chunks.adds, element)
         <= UidsOf(Next(s, step).replicas[id].doc.chunks.adds, element)
  {
    hide UidsOf, MergeDoc, ApplyEdit, Delta;
    var d := s.replicas[id].doc;
    match step
    case LocalEdit(at, edit) =>
      EditIsMerge(d, edit);
      MergeKeepsUids(d, Delta(d, edit), element);
    case ClientReceive(at, frame) =>
      MergeKeepsUids(d, frame, element);
    case Push(_) =>
    case RelayReceive(_, _) =>
    case Broadcast(_) =>
    case Connect(_) =>
    case Disconnect(_, _) =>
    case RestartRelay =>
  }

  lemma MergeKeepsUids(mine: Doc, theirs: Doc, element: string)
    ensures UidsOf(mine.chunks.adds, element) <= UidsOf(MergeDoc(mine, theirs).chunks.adds, element)
  {
    UidsAfterMerge(mine.chunks.adds, theirs.chunks.adds, element);
  }

  lemma {:induction false} RunKeepsUids(s: Net, steps: seq<Step>, w: Writers, id: Id, element: string)
    requires IsRun(s, steps, w) && id in s.replicas
    ensures id in Run(s, steps, w).replicas
    ensures UidsOf(s.replicas[id].doc.chunks.adds, element)
         <= UidsOf(Run(s, steps, w).replicas[id].doc.chunks.adds, element)
    decreases |steps|
  {
    hide UidsOf, Next, Enabled;
    if steps != [] {
      StepKeepsUids(s, steps[0], id, element);
      RunKeepsUids(Next(s, steps[0]), steps[1..], w, id, element);
    }
  }

  /**
   Add wins. Once a replica has an add whose uid no removal has observed, its element is present there
   after any run of edits, merges, losses and restarts in which none observes it.
   */
  lemma AddWins(s: Net, steps: seq<Step>, w: Writers, element: string, uid: string, id: Id)
    requires Inv(s, w) && IsRun(s, steps, w) && NeverRemoved(s, steps, w, uid)
    requires uid !in JoinAll(s.edits).chunks.removes
    requires id in s.replicas && uid in UidsOf(s.replicas[id].doc.chunks.adds, element)
    ensures id in Run(s, steps, w).replicas && Contains(Run(s, steps, w).replicas[id].doc.chunks, element)
  {
    hide UidsOf;
    RunKeepsUids(s, steps, w, id, element);
    AddWinsWhereKnown(s, steps, w, element, uid, id);
  }

  // Also where the add arrived on the way.
  lemma AddWinsWhereKnown(s: Net, steps: seq<Step>, w: Writers, element: string, uid: string, id: Id)
    requires Inv(s, w) && IsRun(s, steps, w) && NeverRemoved(s, steps, w, uid)
    requires uid !in JoinAll(s.edits).chunks.removes
    requires id in Run(s, steps, w).replicas && uid in UidsOf(Run(s, steps, w).replicas[id].doc.chunks.adds, element)
    ensures Contains(Run(s, steps, w).replicas[id].doc.chunks, element)
  {
    var s' := Run(s, steps, w);
    RunKeepsInv(s, steps, w);
    UnobservedAddIsNotRemoved(s, steps, w, uid);
    var d := s'.replicas[id].doc;
    assert ReplicaInv(s', w, JoinAll(s'.edits), id, s'.replicas[id]);
    assert uid in UidsOf(d.chunks.adds, element) - d.chunks.removes;
  }

  // ---------- convergence can always be reached ----------

  lemma {:induction false} RunInTwo(s: Net, first: seq<Step>, rest: seq<Step>, w: Writers)
    requires IsRun(s, first, w) && IsRun(Run(s, first, w), rest, w)
    ensures IsRun(s, first + rest, w) && Run(s, first + rest, w) == Run(Run(s, first, w), rest, w)
    decreases |first|
  {
    hide Next, Enabled, EditBy;
    if first == [] {
      assert first + rest == rest;
    } else {
      RunInTwo(Next(s, first[0]), first[1..], rest, w);
      assert (first + rest)[1..] == first[1..] + rest;
    }
  }

  function Disconnected(s: Net): set<Id> {
    set id | id in s.replicas && !s.replicas[id].connected
  }

  function Unpushed(s: Net): set<Id> {
    set id | id in s.replicas && !s.replicas[id].pushed
  }

  function Unread(s: Net): set<Id> {
    set id | id in s.replicas && s.replicas[id].inbox != multiset{}
  }

  // A replica can consume every frame sent to it; nothing else changes but its document.
  lemma {:induction false} DrainInbox(s: Net, id: Id, w: Writers) returns (steps: seq<Step>)
    requires id in s.replicas
    ensures IsRun(s, steps, w)
    ensures id in Run(s, steps, w).replicas
    ensures var r' := Run(s, steps, w).replicas[id];
      r' == s.replicas[id].(doc := r'.doc, inbox := multiset{})
      && Run(s, steps, w) == s.(replicas := s.replicas[id := r'])
    decreases |s.replicas[id].inbox|
  {
    if s.replicas[id].inbox == multiset{} {
      steps := [];
      assert s.replicas[id := s.replicas[id]] == s.replicas;
    } else {
      var frame :| frame in s.replicas[id].inbox;
      var step := ClientReceive(id, frame);
      var rest := DrainInbox(Next(s, step), id, w);
      steps := [step] + rest;
      assert steps[1..] == rest;
    }
  }

  lemma OneStep(s: Net, step: Step, w: Writers)
    requires Enabled(s, step) && !step.LocalEdit?
    ensures IsRun(s, [step], w) && Run(s, [step], w) == Next(s, step)
    ensures Next(s, step).edits == s.edits
  {
    assert [step][1..] == [];
  }

  ghost predicate Closer(s': Net, s: Net) {
    (Disconnected(s), Unpushed(s), |s.uplink|, |s.pending|, Unread(s) decreases to
     Disconnected(s'), Unpushed(s'), |s'.uplink|, |s'.pending|, Unread(s'))
  }

  lemma ConnectIsCloser(s: Net, id: Id)
    requires id in Disconnected(s)
    ensures Closer(Next(s, Connect(id)), s)
  {
    assert Disconnected(Next(s, Connect(id))) == Disconnected(s) - {id};
  }

  lemma PushIsCloser(s: Net, id: Id)
    requires id in Unpushed(s) && Disconnected(s) == {}
    ensures Enabled(s, Push(id)) && Closer(Next(s, Push(id)), s)
  {
    assert id !in Disconnected(s);
    assert Disconnected(Next(s, Push(id))) == Disconnected(s);
    assert Unpushed(Next(s, Push(id))) == Unpushed(s) - {id};
  }

  lemma ReceiveIsCloser(s: Net, id: Id, frame: Doc)
    requires (id, frame) in s.uplink
    ensures Closer(Next(s, RelayReceive(id, frame)), s)
  {
    hide MergeDoc;
  }

  lemma BroadcastIsCloser(s: Net, snapshot: Doc)
    requires snapshot in s.pending
    ensures Closer(Next(s, Broadcast(snapshot)), s)
  {
    assert Disconnected(Next(s, Broadcast(snapshot))) == Disconnected(s);
    assert Unpushed(Next(s, Broadcast(snapshot))) == Unpushed(s);
  }

  lemma ReadIsCloser(s: Net, id: Id, r: Replica)
    requires id in Unread(s)
    requires r == s.replicas[id].(doc := r.doc, inbox := multiset{})
    ensures Closer(s.(replicas := s.replicas[id := r]), s)
  {
    var s' := s.(replicas := s.replicas[id := r]);
    assert Disconnected(s') == Disconnected(s);
    assert Unpushed(s') == Unpushed(s);
    assert Unread(s') == Unread(s) - {id};
  }

  // While the state is not quiescent some steps, none of them an edit, bring it closer.
  lemma Progress(s: Net, w: Writers) returns (first: seq<Step>)
    requires !Quiescent(s)
    ensures IsRun(s, first, w) && Run(s, first, w).edits == s.edits
    ensures Closer(Run(s, first, w), s)
  {
    hide Closer, Next;
    if id :| id in Disconnected(s) {
      first := [Connect(id)];
      ConnectIsCloser(s, id);
    } else if id :| id in Unpushed(s) {
      first := [Push(id)];
      PushIsCloser(s, id);
    } else if m :| m in s.uplink {
      first := [RelayReceive(m.0, m.1)];
      ReceiveIsCloser(s, m.0, m.1);
    } else if snapshot :| snapshot in s.pending {
      first := [Broadcast(snapshot)];
      BroadcastIsCloser(s, snapshot);
    } else {
      assert exists id :: id in s.replicas && s.replicas[id].inbox != multiset{} by {
        assert forall id :: id in s.replicas ==> id !in Disconnected(s) && id !in Unpushed(s);
      }
      var id :| id in s.replicas && s.replicas[id].inbox != multiset{};
      first := DrainInbox(s, id, w);
      ReadIsCloser(s, id, Run(s, first, w).replicas[id]);
      return;
    }
    OneStep(s, first[0], w);
  }

  /**
   From every state, also right after the relay lost everything, some schedule of connects, pushes
   and deliveries, without further edits, leads to a converged state.
   */
  lemma {:induction false} ConvergenceIsReachable(s: Net, w: Writers) returns (steps: seq<Step>)
    requires Inv(s, w)
    ensures IsRun(s, steps, w) && Quiescent(Run(s, steps, w))
    ensures Run(s, steps, w).edits == s.edits
    ensures forall id :: id in Run(s, steps, w).replicas ==> Run(s, steps, w).replicas[id].doc == JoinAll(s.edits)
    decreases Disconnected(s), Unpushed(s), |s.uplink|, |s.pending|, Unread(s)
  {
    if Quiescent(s) {
      steps := [];
      QuiescentMeansConverged(s, w);
    } else {
      var first := Progress(s, w);
      RunKeepsInv(s, first, w);
      var rest := ConvergenceIsReachable(Run(s, first, w), w);
      RunInTwo(s, first, rest, w);
      steps := first + rest;
    }
  }

  // ---------- every schedule of deliveries converges ----------

  predicate IsDelivery(step: Step) {
    step.RelayReceive? || step.Broadcast? || step.ClientReceive?
  }

  // Every replica is connected and has pushed since its last edit; frames may still be on their way.
  predicate Settled(s: Net) {
    forall id :: id in s.replicas ==> s.replicas[id].connected && s.replicas[id].pushed
  }

  ghost function Waiting(ids: set<Id>, replicas: map<Id, Replica>): nat
    requires ids <= replicas.Keys
  {
    if ids == {} then 0 else
      var id :| id in ids;
      |replicas[id].inbox| + Waiting(ids - {id}, replicas)
  }

  // How many deliveries are left: a frame to the relay is merged, broadcast and read by every replica.
  ghost function Work(s: Net): nat {
    var n := |s.replicas.Keys|;
    |s.uplink| * (n + 2) + |s.pending| * (n + 1) + Waiting(s.replicas.Keys, s.replicas)
  }

  lemma {:induction false} WaitingWithout(ids: set<Id>, replicas: map<Id, Replica>, id: Id)
    requires ids <= replicas.Keys && id in ids
    ensures Waiting(ids, replicas) == |replicas[id].inbox| + Waiting(ids - {id}, replicas)
  {
    var first :| first in ids && Waiting(ids, replicas) == |replicas[first].inbox| + Waiting(ids - {first}, replicas);
    if first != id {
      WaitingWithout(ids - {first}, replicas, id);
      WaitingWithout(ids - {id}, replicas, first);
      assert ids - {first} - {id} == ids - {id} - {first};
    }
  }

  lemma {:induction false} WaitingOfSame(ids: set<Id>, a: map<Id, Replica>, b: map<Id, Replica>)
    requires ids <= a.Keys && ids <= b.Keys && forall id :: id in ids ==> |b[id].inbox| == |a[id].inbox|
    ensures Waiting(ids, b) == Waiting(ids, a)
  {
    if id :| id in ids {
      WaitingWithout(ids, a, id);
      WaitingWithout(ids, b, id);
      WaitingOfSame(ids - {id}, a, b);
    }
  }

  lemma {:induction false} WaitingOneMore(ids: set<Id>, a: map<Id, Replica>, b: map<Id, Replica>)
    requires ids <= a.Keys && ids <= b.Keys && forall id :: id in ids ==> |b[id].inbox| == |a[id].inbox| + 1
    ensures Waiting(ids, b) == Waiting(ids, a) + |ids|
  {
    if id :| id in ids {
      WaitingWithout(ids, a, id);
      WaitingWithout(ids, b, id);
      WaitingOneMore(ids - {id}, a, b);
    }
  }

  lemma {:induction false} NothingWaits(ids: set<Id>, replicas: map<Id, Replica>)
    requires ids <= replicas.Keys
    ensures Waiting(ids, replicas) == 0 <==> forall id :: id in ids ==> replicas[id].inbox == multiset{}
  {
    if id :| id in ids {
      WaitingWithout(ids, replicas, id);
      NothingWaits(ids - {id}, replicas);
    }
  }

  lemma ReadOneFrame(s: Net, id: Id, frame: Doc)
    requires Settled(s) && Enabled(s, ClientReceive(id, frame))
    ensures Work(Next(s, ClientReceive(id, frame))) + 1 == Work(s)
  {
    hide MergeDoc;
    var s' := Next(s, ClientReceive(id, frame));
    var ids := s.replicas.Keys;
    assert s'.replicas.Keys == ids;
    WaitingWithout(ids, s.replicas, id);
    WaitingWithout(ids, s'.replicas, id);
    WaitingOfSame(ids - {id}, s.replicas, s'.replicas);
  }

  lemma BroadcastReachesAll(s: Net, snapshot: Doc)
    requires Settled(s) && Enabled(s, Broadcast(snapshot))
    ensures var s' := Next(s, Broadcast(snapshot));
      && s'.replicas.Keys == s.replicas.Keys && s'.uplink == s.uplink && |s'.pending| + 1 == |s.pending|
      && forall id :: id in s.replicas.Keys ==> |s'.replicas[id].inbox| == |s.replicas[id].inbox| + 1
  {}

  lemma BroadcastOne(s: Net, snapshot: Doc)
    requires Settled(s) && Enabled(s, Broadcast(snapshot))
    ensures Work(Next(s, Broadcast(snapshot))) + 1 == Work(s)
  {
    hide Next, Waiting, Settled, Enabled;
    var s' := Next(s, Broadcast(snapshot));
    BroadcastReachesAll(s, snapshot);
    WaitingOneMore(s.replicas.Keys, s.replicas, s'.replicas);
    OneFewer(|s'.pending|, |s.replicas.Keys| + 1);
  }

  lemma MergeOne(s: Net, id: Id, frame: Doc)
    requires Enabled(s, RelayReceive(id, frame))
    ensures Work(Next(s, RelayReceive(id, frame))) + 1 == Work(s)
  {
    hide MergeDoc, Waiting;
    var s' := Next(s, RelayReceive(id, frame));
    OneFewer(|s'.uplink|, |s.replicas.Keys| + 2);
    OneFewer(|s.pending|, |s.replicas.Keys| + 1);
  }

  lemma OneFewer(k: nat, n: nat)
    ensures (k + 1) * n == k * n + n
  {}

  lemma DeliveryIsWork(s: Net, step: Step)
    requires Settled(s) && Enabled(s, step) && IsDelivery(step)
    ensures Settled(Next(s, step)) && Next(s, step).edits == s.edits && Work(Next(s, step)) + 1 == Work(s)
  {
    hide Work, MergeDoc;
    match step
    case RelayReceive(id, frame) => MergeOne(s, id, frame);
    case Broadcast(snapshot) => BroadcastOne(s, snapshot);
    case ClientReceive(id, frame) => ReadOneFrame(s, id, frame);
  }

  lemma NoWorkIsQuiescent(s: Net)
    requires Settled(s)
    ensures Work(s) == 0 <==> Quiescent(s)
  {
    hide Waiting;
    NothingWaits(s.replicas.Keys, s.replicas);
    assert |s.uplink| == 0 <==> s.uplink == multiset{};
    assert |s.pending| == 0 <==> s.pending == multiset{};
  }

  lemma {:induction false} DeliveriesAreWork(s: Net, steps: seq<Step>, w: Writers)
    requires Settled(s) && IsRun(s, steps, w) && forall step :: step in steps ==> IsDelivery(step)
    ensures var s' := Run(s, steps, w); Settled(s') && s'.edits == s.edits && Work(s') + |steps| == Work(s)
    decreases |steps|
  {
    hide Work, Settled, Next, Enabled;
    if steps != [] {
      DeliveryIsWork(s, steps[0]);
      DeliveriesAreWork(Next(s, steps[0]), steps[1..], w);
    }
  }

  /**
   Once every replica is connected and has pushed, every schedule of merges, broadcasts and deliveries, in
   whatever order, is at most Work(s) steps long; one that is shorter can go on, and one that is as long
   ends with all replicas holding the join of all edits.
   */
  lemma EveryScheduleConverges(s: Net, steps: seq<Step>, w: Writers)
    requires Inv(s, w) && Settled(s) && IsRun(s, steps, w) && forall step :: step in steps ==> IsDelivery(step)
    ensures |steps| <= Work(s)
    ensures var s' := Run(s, steps, w);
      if |steps| == Work(s)
      then forall id :: id in s'.replicas ==> s'.replicas[id].doc == s'.relay == JoinAll(s.edits)
      else exists step :: IsDelivery(step) && Enabled(s', step)
  {
    hide Work, Inv, Settled, JoinAll;
    var s' := Run(s, steps, w);
    DeliveriesAreWork(s, steps, w);
    RunKeepsInv(s, steps, w);
    NoWorkIsQuiescent(s');
    if |steps| == Work(s) {
      QuiescentMeansConverged(s', w);
    } else {
      SomethingIsLeft(s');
    }
  }

  lemma SomethingIsLeft(s: Net)
    requires Settled(s) && !Quiescent(s)
    ensures exists step :: IsDelivery(step) && Enabled(s, step)
  {
    if m :| m in s.uplink {
      assert IsDelivery(RelayReceive(m.0, m.1)) && Enabled(s, RelayReceive(m.0, m.1));
    } else if snapshot :| snapshot in s.pending {
      assert IsDelivery(Broadcast(snapshot)) && Enabled(s, Broadcast(snapshot));
    } else {
      var id :| id in s.replicas && s.replicas[id].inbox != multiset{};
      var frame :| frame in s.replicas[id].inbox;
      assert IsDelivery(ClientReceive(id, frame)) && Enabled(s, ClientReceive(id, frame));
    }
  }
}
