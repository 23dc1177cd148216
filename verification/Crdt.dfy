/**
 The replicated memory document of sera/sync/crdt.py, on values: a last-write-wins
 register, an observed-remove set and the document that combines them, their merges,
 and the order in which a merge is a least upper bound.
 */
module Crdt {
  import opened Wrappers
  import opened StringOrder

  // A JSON value, left opaque.
  type Value = string

  // ---------- last-write-wins register ----------

  datatype LWWEntry = LWWEntry(value: Value, ts: real, nodeId: string)

  type Register = map<string, LWWEntry>

  function LwwWins(a: LWWEntry, b: LWWEntry): LWWEntry {
    if a.ts > b.ts then a
    else if b.ts > a.ts then b
    else if Leq(b.nodeId, a.nodeId) then a
    else b
  }

  function SetRegister(reg: Register, key: string, entry: LWWEntry): Register {
    reg[key := if key in reg then LwwWins(entry, reg[key]) else entry]
  }

  function MergeRegister(mine: Register, theirs: Register): Register {
    map key | key in mine.Keys + theirs.Keys ::
      if key !in mine then theirs[key]
      else if key !in theirs then mine[key]
      else LwwWins(theirs[key], mine[key])
  }

  predicate SameStamp(a: LWWEntry, b: LWWEntry) {
    a.ts == b.ts && a.nodeId == b.nodeId
  }

  // The strict order of write stamps: by time, then by node id.
  predicate Older(a: LWWEntry, b: LWWEntry) {
    a.ts < b.ts || (a.ts == b.ts && a.nodeId != b.nodeId && Leq(a.nodeId, b.nodeId))
  }

  predicate EntryLeq(a: LWWEntry, b: LWWEntry) {
    a == b || Older(a, b)
  }

  ghost predicate RegisterLeq(a: Register, b: Register) {
    forall key :: key in a ==> key in b && EntryLeq(a[key], b[key])
  }

  // No key holds two writes with one stamp and different values.
  ghost predicate RegistersAgree(a: Register, b: Register) {
    forall key :: key in a && key in b && SameStamp(a[key], b[key]) ==> a[key].value == b[key].value
  }

  // ---------- observed-remove set ----------

  datatype ORSetEntry = ORSetEntry(uid: string, nodeId: string, ts: real)

  datatype ORState = ORState(
    adds: map<string, set<string>>,
    removes: set<string>,
    entries: map<string, ORSetEntry>)

  function UidsOf(adds: map<string, set<string>>, element: string): set<string> {
    if element in adds then adds[element] else {}
  }

  function MergeAdds(mine: map<string, set<string>>, theirs: map<string, set<string>>): map<string, set<string>> {
    map element | element in mine.Keys + theirs.Keys :: UidsOf(mine, element) + UidsOf(theirs, element)
  }

  function MergeORState(mine: ORState, theirs: ORState): ORState {
    ORState(MergeAdds(mine.adds, theirs.adds), mine.removes + theirs.removes, mine.entries + theirs.entries)
  }

  predicate Contains(s: ORState, element: string) {
    UidsOf(s.adds, element) - s.removes != {}
  }

  ghost predicate AddsLeq(a: map<string, set<string>>, b: map<string, set<string>>) {
    forall element :: element in a ==> element in b && a[element] <= b[element]
  }

  ghost predicate EntriesLeq(a: map<string, ORSetEntry>, b: map<string, ORSetEntry>) {
    forall uid :: uid in a ==> uid in b && a[uid] == b[uid]
  }

  ghost predicate ORStateLeq(a: ORState, b: ORState) {
    AddsLeq(a.adds, b.adds) && a.removes <= b.removes && EntriesLeq(a.entries, b.entries)
  }

  ghost predicate EntriesAgree(a: map<string, ORSetEntry>, b: map<string, ORSetEntry>) {
    forall uid :: uid in a && uid in b ==> a[uid] == b[uid]
  }

  // ---------- document ----------

  datatype Doc = Doc(chunks: ORState, entities: Register, relations: Register)

  const EMPTY_DOC := Doc(ORState(map[], {}, map[]), map[], map[])

  function MergeDoc(mine: Doc, theirs: Doc): Doc {
    Doc(MergeORState(mine.chunks, theirs.chunks),
        MergeRegister(mine.entities, theirs.entities),
        MergeRegister(mine.relations, theirs.relations))
  }

  ghost predicate DocLeq(a: Doc, b: Doc) {
    ORStateLeq(a.chunks, b.chunks) && RegisterLeq(a.entities, b.entities) && RegisterLeq(a.relations, b.relations)
  }

  // What the design assumes of the writers: a stamp names one write and a uid names one add.
  ghost predicate DocsAgree(a: Doc, b: Doc) {
    EntriesAgree(a.chunks.entries, b.chunks.entries)
    && RegistersAgree(a.entities, b.entities)
    && RegistersAgree(a.relations, b.relations)
  }

  // ---------- the order is a partial order ----------

  lemma OlderIsStrictOrder(a: LWWEntry, b: LWWEntry, c: LWWEntry)
    ensures !(Older(a, b) && Older(b, a))
    ensures Older(a, b) && Older(b, c) ==> Older(a, c)
    ensures SameStamp(a, b) || Older(a, b) || Older(b, a)
  {
    LeqTotal(a.nodeId, b.nodeId);
    if Leq(a.nodeId, b.nodeId) && Leq(b.nodeId, a.nodeId) {
      LeqAntisymmetric(a.nodeId, b.nodeId);
    }
    if Leq(a.nodeId, b.nodeId) && Leq(b.nodeId, c.nodeId) {
      LeqTransitive(a.nodeId, b.nodeId, c.nodeId);
      if a.nodeId == c.nodeId {
        LeqAntisymmetric(a.nodeId, b.nodeId);
      }
    }
  }

  // The winner of two writes is the newer one; at a full tie it is the first argument.
  lemma LwwWinsIsNewest(a: LWWEntry, b: LWWEntry)
    ensures LwwWins(a, b) == if Older(a, b) then b else a
    ensures EntryLeq(b, LwwWins(a, b)) || SameStamp(a, b)
  {
    LeqTotal(a.nodeId, b.nodeId);
    if Leq(a.nodeId, b.nodeId) && Leq(b.nodeId, a.nodeId) {
      LeqAntisymmetric(a.nodeId, b.nodeId);
    }
  }

  lemma DocLeqReflexive(a: Doc)
    ensures DocLeq(a, a)
  {}

  lemma RegisterLeqTransitive(a: Register, b: Register, c: Register)
    requires RegisterLeq(a, b) && RegisterLeq(b, c)
    ensures RegisterLeq(a, c)
  {
    forall key | key in a
      ensures key in c && EntryLeq(a[key], c[key])
    {
      OlderIsStrictOrder(a[key], b[key], c[key]);
    }
  }

  lemma DocLeqTransitive(a: Doc, b: Doc, c: Doc)
    requires DocLeq(a, b) && DocLeq(b, c)
    ensures DocLeq(a, c)
  {
    RegisterLeqTransitive(a.entities, b.entities, c.entities);
    RegisterLeqTransitive(a.relations, b.relations, c.relations);
  }

  lemma RegisterLeqAntisymmetric(a: Register, b: Register)
    requires RegisterLeq(a, b) && RegisterLeq(b, a)
    ensures a == b
  {
    assert a.Keys == b.Keys;
    forall key | key in a
      ensures a[key] == b[key]
    {
      OlderIsStrictOrder(a[key], b[key], a[key]);
    }
  }

  lemma AddsLeqAntisymmetric(a: map<string, set<string>>, b: map<string, set<string>>)
    requires AddsLeq(a, b) && AddsLeq(b, a)
    ensures a == b
  {
    assert a.Keys == b.Keys;
    forall element | element in a
      ensures a[element] == b[element]
    {}
  }

  lemma DocLeqAntisymmetric(a: Doc, b: Doc)
    requires DocLeq(a, b) && DocLeq(b, a)
    ensures a == b
  {
    AddsLeqAntisymmetric(a.chunks.adds, b.chunks.adds);
    assert a.chunks.entries.Keys == b.chunks.entries.Keys;
    assert a.chunks.entries == b.chunks.entries;
    RegisterLeqAntisymmetric(a.entities, b.entities);
    RegisterLeqAntisymmetric(a.relations, b.relations);
  }

  // ---------- a merge is a least upper bound ----------

  lemma RegisterMergeBounds(mine: Register, theirs: Register)
    ensures RegisterLeq(theirs, MergeRegister(mine, theirs))
    ensures RegisterLeq(mine, MergeRegister(mine, theirs)) <==> RegistersAgree(mine, theirs)
  {
    var m := MergeRegister(mine, theirs);
    forall key | key in theirs
      ensures EntryLeq(theirs[key], m[key])
    {
      if key in mine {
        LwwWinsIsNewest(theirs[key], mine[key]);
      }
    }
    forall key | key in mine
      ensures EntryLeq(mine[key], m[key]) <==>
              (key in theirs && SameStamp(mine[key], theirs[key]) ==> mine[key].value == theirs[key].value)
    {
      if key in theirs {
        LwwWinsIsNewest(theirs[key], mine[key]);
        OlderIsStrictOrder(mine[key], theirs[key], mine[key]);
      }
    }
  }

  // The receiver's state always survives in the sense of the order, unless it ties with a
  // different value: then the incoming write replaces it.
  lemma MergeBounds(mine: Doc, theirs: Doc)
    ensures DocLeq(theirs, MergeDoc(mine, theirs))
    ensures DocLeq(mine, MergeDoc(mine, theirs)) <==> DocsAgree(mine, theirs)
  {
    RegisterMergeBounds(mine.entities, theirs.entities);
    RegisterMergeBounds(mine.relations, theirs.relations);
    var a, b := mine.chunks.entries, theirs.chunks.entries;
    forall uid | uid in a
      ensures (a + b)[uid] == a[uid] <==> (uid in b ==> a[uid] == b[uid])
    {
    }
  }

  lemma RegisterMergeIsLeast(mine: Register, theirs: Register, bound: Register)
    requires RegisterLeq(mine, bound) && RegisterLeq(theirs, bound)
    ensures RegisterLeq(MergeRegister(mine, theirs), bound)
  {
  }

  lemma MergeIsLeast(mine: Doc, theirs: Doc, bound: Doc)
    requires DocLeq(mine, bound) && DocLeq(theirs, bound)
    ensures DocLeq(MergeDoc(mine, theirs), bound)
  {
    RegisterMergeIsLeast(mine.entities, theirs.entities, bound.entities);
    RegisterMergeIsLeast(mine.relations, theirs.relations, bound.relations);
  }

  // ---------- algebra of merge ----------

  lemma MergeIdempotent(a: Doc)
    ensures MergeDoc(a, a) == a
  {
    forall key | key in a.entities
      ensures MergeRegister(a.entities, a.entities)[key] == a.entities[key]
    {}
    assert MergeRegister(a.entities, a.entities) == a.entities;
    assert MergeRegister(a.relations, a.relations) == a.relations;
    assert forall element :: element in a.chunks.adds ==>
      MergeAdds(a.chunks.adds, a.chunks.adds)[element] == a.chunks.adds[element];
  }

  lemma LwwWinsAssociative(a: LWWEntry, b: LWWEntry, c: LWWEntry)
    ensures LwwWins(c, LwwWins(b, a)) == LwwWins(LwwWins(c, b), a)
  {
    LwwWinsIsNewest(b, a);
    LwwWinsIsNewest(c, b);
    LwwWinsIsNewest(c, a);
    OlderIsStrictOrder(c, b, a);
    OlderIsStrictOrder(b, a, c);
    OlderIsStrictOrder(b, c, a);
    OlderIsStrictOrder(c, a, b);
    if Older(c, a) && !Older(c, b) {
      OlderOverTie(b, c, a);
    }
    if Older(b, a) && !Older(c, b) {
      if !Older(c, a) {
        OlderOverTie(b, c, a);
      }
    }
  }

  // If b is not newer than c and c is older than a, then b is older than a too.
  lemma OlderOverTie(b: LWWEntry, c: LWWEntry, a: LWWEntry)
    requires !Older(c, b)
    ensures Older(c, a) ==> Older(b, a)
  {
    OlderIsStrictOrder(b, c, a);
  }

  lemma RegisterMergeAssociative(a: Register, b: Register, c: Register)
    ensures MergeRegister(MergeRegister(a, b), c) == MergeRegister(a, MergeRegister(b, c))
  {
    var left, right := MergeRegister(MergeRegister(a, b), c), MergeRegister(a, MergeRegister(b, c));
    assert left.Keys == right.Keys;
    forall key | key in left
      ensures left[key] == right[key]
    {
      if key in a && key in b && key in c {
        LwwWinsAssociative(a[key], b[key], c[key]);
      }
    }
  }

  lemma UnionAssociative<T>(x: set<T>, y: set<T>, z: set<T>)
    ensures (x + y) + z == x + (y + z)
  {}

  lemma MapUnionAssociative<K, V>(x: map<K, V>, y: map<K, V>, z: map<K, V>)
    ensures (x + y) + z == x + (y + z)
  {}

  lemma UidsAfterMerge(a: map<string, set<string>>, b: map<string, set<string>>, element: string)
    ensures UidsOf(MergeAdds(a, b), element) == UidsOf(a, element) + UidsOf(b, element)
  {}

  lemma UidsMergeAssociative(
    a: map<string, set<string>>, b: map<string, set<string>>, c: map<string, set<string>>, element: string)
    ensures UidsOf(MergeAdds(MergeAdds(a, b), c), element) == UidsOf(MergeAdds(a, MergeAdds(b, c)), element)
  {
    UidsAfterMerge(MergeAdds(a, b), c, element);
    UidsAfterMerge(a, b, element);
    UidsAfterMerge(a, MergeAdds(b, c), element);
    UidsAfterMerge(b, c, element);
    UnionAssociative(UidsOf(a, element), UidsOf(b, element), UidsOf(c, element));
  }

  lemma KeysOfMerge(a: map<string, set<string>>, b: map<string, set<string>>)
    ensures MergeAdds(a, b).Keys == a.Keys + b.Keys
  {}

  lemma AddsMergeAssociative(a: map<string, set<string>>, b: map<string, set<string>>, c: map<string, set<string>>)
    ensures MergeAdds(MergeAdds(a, b), c) == MergeAdds(a, MergeAdds(b, c))
  {
    hide MergeAdds;
    var left, right := MergeAdds(MergeAdds(a, b), c), MergeAdds(a, MergeAdds(b, c));
    assert left.Keys == right.Keys by {
      KeysOfMerge(a, b);
      KeysOfMerge(b, c);
      KeysOfMerge(MergeAdds(a, b), c);
      KeysOfMerge(a, MergeAdds(b, c));
      UnionAssociative(a.Keys, b.Keys, c.Keys);
    }
    forall element | element in left
      ensures left[element] == right[element]
    {
      UidsMergeAssociative(a, b, c, element);
    }
  }

  lemma ORStateMergeAssociative(a: ORState, b: ORState, c: ORState)
    ensures MergeORState(MergeORState(a, b), c) == MergeORState(a, MergeORState(b, c))
  {
    AddsMergeAssociative(a.adds, b.adds, c.adds);
    UnionAssociative(a.removes, b.removes, c.removes);
    MapUnionAssociative(a.entries, b.entries, c.entries);
  }

  // Associativity needs no assumption about ties.
  lemma MergeAssociative(a: Doc, b: Doc, c: Doc)
    ensures MergeDoc(MergeDoc(a, b), c) == MergeDoc(a, MergeDoc(b, c))
  {
    RegisterMergeAssociative(a.entities, b.entities, c.entities);
    RegisterMergeAssociative(a.relations, b.relations, c.relations);
    ORStateMergeAssociative(a.chunks, b.chunks, c.chunks);
  }

  // Commutativity holds for exactly the documents that agree at ties.
  lemma MergeCommutes(a: Doc, b: Doc)
    ensures MergeDoc(a, b) == MergeDoc(b, a) <==> DocsAgree(a, b)
  {
    MergeBounds(a, b);
    MergeBounds(b, a);
    if DocsAgree(a, b) {
      MergeIsLeast(a, b, MergeDoc(b, a));
      MergeIsLeast(b, a, MergeDoc(a, b));
      DocLeqAntisymmetric(MergeDoc(a, b), MergeDoc(b, a));
    }
  }

  lemma MergeMonotone(a: Doc, b: Doc, c: Doc, d: Doc)
    requires DocLeq(a, c) && DocLeq(b, d) && DocsAgree(c, d)
    ensures DocLeq(MergeDoc(a, b), MergeDoc(c, d))
  {
    MergeBounds(c, d);
    DocLeqTransitive(a, c, MergeDoc(c, d));
    DocLeqTransitive(b, d, MergeDoc(c, d));
    MergeIsLeast(a, b, MergeDoc(c, d));
  }

  // A tie with different values, which the code resolves by the order of the arguments.
  lemma TieBreaksCommutativity()
    ensures exists a: Doc, b: Doc :: MergeDoc(a, b) != MergeDoc(b, a)
  {
    var x, y := LWWEntry("x", 1.0, "n"), LWWEntry("y", 1.0, "n");
    var a := EMPTY_DOC.(entities := map["k" := x]);
    var b := EMPTY_DOC.(entities := map["k" := y]);
    assert SameStamp(a.entities["k"], b.entities["k"]);
    MergeCommutes(a, b);
  }

  // ---------- observed-remove semantics ----------

  ghost predicate RemovesObserved(s: ORState) {
    forall uid :: uid in s.removes ==> exists element :: element in s.adds && uid in s.adds[element]
  }

  lemma MergeKeepsRemovesObserved(a: ORState, b: ORState)
    requires RemovesObserved(a) && RemovesObserved(b)
    ensures RemovesObserved(MergeORState(a, b))
  {
    var m := MergeORState(a, b);
    forall uid | uid in m.removes
      ensures exists element :: element in m.adds && uid in m.adds[element]
    {
      if uid in a.removes {
        var element :| element in a.adds && uid in a.adds[element];
        assert element in m.adds && uid in m.adds[element];
      } else {
        var element :| element in b.adds && uid in b.adds[element];
        assert element in m.adds && uid in m.adds[element];
      }
    }
  }

  // An element is in a merge exactly when one side observed an add of it that neither side removed.
  lemma ContainsAfterMerge(a: ORState, b: ORState, element: string)
    ensures Contains(MergeORState(a, b), element) <==>
            exists uid :: uid in UidsOf(a.adds, element) + UidsOf(b.adds, element)
                       && uid !in a.removes && uid !in b.removes
  {
    var m := MergeORState(a, b);
    assert UidsOf(m.adds, element) == UidsOf(a.adds, element) + UidsOf(b.adds, element);
    if Contains(m, element) {
      var uid :| uid in UidsOf(m.adds, element) - m.removes;
      assert uid in UidsOf(a.adds, element) + UidsOf(b.adds, element);
    }
    if uid :| uid in UidsOf(a.adds, element) + UidsOf(b.adds, element) && uid !in a.removes && uid !in b.removes {
      assert uid in UidsOf(m.adds, element) - m.removes;
    }
  }

  // ---------- local edits are merges of a delta ----------

  datatype Edit =
    | SetEntity(key: string, entry: LWWEntry)
    | SetRelation(key: string, entry: LWWEntry)
    | AddChunk(element: string, added: ORSetEntry)
    | RemoveChunk(element: string)

  function AddToState(s: ORState, element: string, added: ORSetEntry): ORState {
    ORState(s.adds[element := UidsOf(s.adds, element) + {added.uid}], s.removes, s.entries[added.uid := added])
  }

  function RemoveFromState(s: ORState, element: string): ORState {
    s.(removes := s.removes + UidsOf(s.adds, element))
  }

  function ApplyEdit(d: Doc, edit: Edit): Doc {
    match edit
    case SetEntity(key, entry) => d.(entities := SetRegister(d.entities, key, entry))
    case SetRelation(key, entry) => d.(relations := SetRegister(d.relations, key, entry))
    case AddChunk(element, added) => d.(chunks := AddToState(d.chunks, element, added))
    case RemoveChunk(element) => d.(chunks := RemoveFromState(d.chunks, element))
  }

  // The document an edit made at d amounts to. A removal carries the adds it observed with it.
  function Delta(d: Doc, edit: Edit): Doc {
    match edit
    case SetEntity(key, entry) => EMPTY_DOC.(entities := map[key := entry])
    case SetRelation(key, entry) => EMPTY_DOC.(relations := map[key := entry])
    case AddChunk(element, added) =>
      EMPTY_DOC.(chunks := ORState(map[element := {added.uid}], {}, map[added.uid := added]))
    case RemoveChunk(element) =>
      EMPTY_DOC.(chunks := ORState(
        if element in d.chunks.adds then map[element := d.chunks.adds[element]] else map[],
        UidsOf(d.chunks.adds, element), map[]))
  }

  lemma SetIsMerge(reg: Register, key: string, entry: LWWEntry)
    ensures SetRegister(reg, key, entry) == MergeRegister(reg, map[key := entry])
  {
    var delta := map[key := entry];
    assert SetRegister(reg, key, entry).Keys == MergeRegister(reg, delta).Keys;
  }

  lemma ORStateMergeEmpty(s: ORState)
    ensures MergeORState(s, EMPTY_DOC.chunks) == s
  {
    assert MergeAdds(s.adds, map[]) == s.adds by {
      assert MergeAdds(s.adds, map[]).Keys == s.adds.Keys;
      forall element | element in s.adds
        ensures MergeAdds(s.adds, map[])[element] == s.adds[element]
      {}
    }
  }

  lemma RegisterMergeEmpty(reg: Register)
    ensures MergeRegister(reg, map[]) == reg
  {
    assert MergeRegister(reg, map[]).Keys == reg.Keys;
  }

  lemma AddIsMerge(s: ORState, element: string, added: ORSetEntry)
    ensures AddToState(s, element, added)
         == MergeORState(s, ORState(map[element := {added.uid}], {}, map[added.uid := added]))
  {
    var delta: map<string, set<string>> := map[element := {added.uid}];
    var after := s.adds[element := UidsOf(s.adds, element) + {added.uid}];
    assert MergeAdds(s.adds, delta).Keys == after.Keys;
    forall e | e in after
      ensures MergeAdds(s.adds, delta)[e] == after[e]
    {}
    assert MergeAdds(s.adds, delta) == after;
  }

  lemma RemoveIsMerge(s: ORState, element: string, observed: map<string, set<string>>)
    requires observed == if element in s.adds then map[element := s.adds[element]] else map[]
    ensures RemoveFromState(s, element) == MergeORState(s, ORState(observed, UidsOf(s.adds, element), map[]))
  {
    assert MergeAdds(s.adds, observed).Keys == s.adds.Keys;
    forall e | e in s.adds
      ensures MergeAdds(s.adds, observed)[e] == s.adds[e]
    {}
    assert MergeAdds(s.adds, observed) == s.adds;
  }

  lemma EditIsMerge(d: Doc, edit: Edit)
    ensures ApplyEdit(d, edit) == MergeDoc(d, Delta(d, edit))
  {
    ORStateMergeEmpty(d.chunks);
    RegisterMergeEmpty(d.entities);
    RegisterMergeEmpty(d.relations);
    match edit
    case SetEntity(key, entry) => SetIsMerge(d.entities, key, entry);
    case SetRelation(key, entry) => SetIsMerge(d.relations, key, entry);
    case AddChunk(element, added) => AddIsMerge(d.chunks, element, added);
    case RemoveChunk(element) => RemoveIsMerge(d.chunks, element, Delta(d, edit).chunks.adds);
  }

  // Each edit touches its own part, and there its own key or element.
  lemma EditTouchesItsPart(d: Doc, key: string, entry: LWWEntry, added: ORSetEntry)
    ensures ApplyEdit(d, SetEntity(key, entry)).(entities := d.entities) == d
    ensures ApplyEdit(d, SetRelation(key, entry)).(relations := d.relations) == d
    ensures ApplyEdit(d, AddChunk(key, added)).(chunks := d.chunks) == d
    ensures ApplyEdit(d, RemoveChunk(key)) ==
            d.(chunks := d.chunks.(removes := ApplyEdit(d, RemoveChunk(key)).chunks.removes))
    ensures var entities := ApplyEdit(d, SetEntity(key, entry)).entities;
      && entities.Keys == d.entities.Keys + {key}
          && (forall k :: k in d.entities && k != key ==> entities[k] == d.entities[k])
      && entities[key] == (if key in d.entities && Older(entry, d.entities[key]) then d.entities[key] else entry)
    ensures var relations := ApplyEdit(d, SetRelation(key, entry)).relations;
      && relations.Keys == d.relations.Keys + {key}
      && (forall k :: k in d.relations && k != key ==> relations[k] == d.relations[k])
      && relations[key] == (if key in d.relations && Older(entry, d.relations[key]) then d.relations[key] else entry)
  {
    if key in d.entities {
      LwwWinsIsNewest(entry, d.entities[key]);
    }
    if key in d.relations {
      LwwWinsIsNewest(entry, d.relations[key]);
    }
  }

  // An add with a uid that is not removed shows its element, and no add or remove changes another one.
  lemma AddShowsElement(s: ORState, element: string, added: ORSetEntry, other: string)
    requires added.uid !in s.removes
    ensures Contains(AddToState(s, element, added), element)
    ensures other != element ==> (Contains(AddToState(s, element, added), other) <==> Contains(s, other))
    ensures added.uid in AddToState(s, element, added).entries
            && AddToState(s, element, added).entries[added.uid] == added
  {
    assert added.uid in UidsOf(AddToState(s, element, added).adds, element) - s.removes;
  }

  lemma RemoveHidesElement(s: ORState, element: string)
    ensures !Contains(RemoveFromState(s, element), element)
  {}

  // ---------- wire form ----------

  // The JSON object of one register entry and of one uid's metadata.
  datatype EntryJson = EntryJson(value: Value, ts: real, nodeId: string)
  datatype MetaJson = MetaJson(nodeId: string, ts: real)

  // A key that may be missing is an Option, as from_dict reads it with a default.
  datatype ORSetJson = ORSetJson(
    adds: Option<map<string, seq<string>>>,
    removes: Option<seq<string>>,
    entries: Option<map<string, MetaJson>>)

  datatype DocJson = DocJson(
    chunks: Option<ORSetJson>,
    entities: Option<map<string, EntryJson>>,
    relations: Option<map<string, EntryJson>>)

  function SetOf(xs: seq<string>): set<string> {
    set x | x in xs
  }

  function RegisterFromJson(data: Option<map<string, EntryJson>>): Register {
    match data
    case None => map[]
    case Some(m) => map key | key in m :: LWWEntry(m[key].value, m[key].ts, m[key].nodeId)
  }

  function ORStateFromJson(data: Option<ORSetJson>): ORState {
    match data
    case None => EMPTY_DOC.chunks
    case Some(o) =>
      ORState(
        if o.adds.None? then map[] else map element | element in o.adds.value :: SetOf(o.adds.value[element]),
        if o.removes.None? then {} else SetOf(o.removes.value),
        if o.entries.None? then map[] else
          map uid | uid in o.entries.value ::
            ORSetEntry(uid, o.entries.value[uid].nodeId, o.entries.value[uid].ts))
  }

  function FromJson(data: DocJson): Doc {
    Doc(ORStateFromJson(data.chunks), RegisterFromJson(data.entities), RegisterFromJson(data.relations))
  }

  // xs lists the members of s in some order, each once.
  predicate Lists(xs: seq<string>, s: set<string>) {
    SetOf(xs) == s && forall i, j :: 0 <= i < j < |xs| ==> xs[i] != xs[j]
  }

  ghost predicate IsRegisterJson(data: Option<map<string, EntryJson>>, reg: Register) {
    data.Some?
    && data.value.Keys == reg.Keys
    && forall key :: key in reg ==> data.value[key] == EntryJson(reg[key].value, reg[key].ts, reg[key].nodeId)
  }

  ghost predicate IsORStateJson(data: Option<ORSetJson>, s: ORState) {
    data.Some? && data.value.adds.Some? && data.value.removes.Some? && data.value.entries.Some?
    && data.value.adds.value.Keys == s.adds.Keys
    && (forall element :: element in s.adds ==> Lists(data.value.adds.value[element], s.adds[element]))
    && Lists(data.value.removes.value, s.removes)
    && data.value.entries.value.Keys == s.entries.Keys
    && forall uid :: uid in s.entries ==>
         data.value.entries.value[uid] == MetaJson(s.entries[uid].nodeId, s.entries[uid].ts)
  }

  // The forms to_dict may give a document: a set is listed in whatever order it iterates.
  ghost predicate IsJsonOf(data: DocJson, d: Doc) {
    IsORStateJson(data.chunks, d.chunks)
    && IsRegisterJson(data.entities, d.entities)
    && IsRegisterJson(data.relations, d.relations)
  }

  ghost predicate MetadataKeyed(s: ORState) {
    forall uid :: uid in s.entries ==> s.entries[uid].uid == uid
  }

  lemma ORStateRoundTrip(data: Option<ORSetJson>, s: ORState)
    requires IsORStateJson(data, s) && MetadataKeyed(s)
    ensures ORStateFromJson(data) == s
  {
    var r := ORStateFromJson(data);
    assert r.adds.Keys == s.adds.Keys;
    forall element | element in s.adds
      ensures r.adds[element] == s.adds[element]
    {}
    assert r.entries.Keys == s.entries.Keys;
    forall uid | uid in s.entries
      ensures r.entries[uid] == s.entries[uid]
    {}
  }

  lemma RegisterRoundTrip(data: Option<map<string, EntryJson>>, reg: Register)
    requires IsRegisterJson(data, reg)
    ensures RegisterFromJson(data) == reg
  {
    assert RegisterFromJson(data).Keys == reg.Keys;
  }

  // Each part is read from the key of its name, and each field from the key of its own.
  lemma PartsAreReadByName(key: string, value: Value, ts: real, node: string)
    ensures FromJson(DocJson(None, Some(map[key := EntryJson(value, ts, node)]), None)) ==
            EMPTY_DOC.(entities := map[key := LWWEntry(value, ts, node)])
    ensures FromJson(DocJson(None, None, Some(map[key := EntryJson(value, ts, node)]))) ==
            EMPTY_DOC.(relations := map[key := LWWEntry(value, ts, node)])
    ensures FromJson(DocJson(Some(ORSetJson(Some(map[key := [value]]), None, None)), None, None)) ==
            EMPTY_DOC.(chunks := ORState(map[key := {value}], {}, map[]))
    ensures FromJson(DocJson(Some(ORSetJson(None, Some([value]), Some(map[key := MetaJson(node, ts)]))), None, None)) ==
            EMPTY_DOC.(chunks := ORState(map[], {value}, map[key := ORSetEntry(key, node, ts)]))
  {
    assert SetOf([value]) == {value};
    var lists: map<string, seq<string>> := map[key := [value]];
    assert (map e | e in lists :: SetOf(lists[e])) == map[key := {value}];
  }

  // Reading back a document gives the same document, whatever order its sets were listed in.
  lemma RoundTrip(data: DocJson, d: Doc)
    requires IsJsonOf(data, d)
    requires MetadataKeyed(d.chunks)
    ensures FromJson(data) == d
  {
    ORStateRoundTrip(data.chunks, d.chunks);
    RegisterRoundTrip(data.entities, d.entities);
    RegisterRoundTrip(data.relations, d.relations);
  }

  lemma MergeKeepsMetadataKeyed(a: ORState, b: ORState)
    requires MetadataKeyed(a) && MetadataKeyed(b)
    ensures MetadataKeyed(MergeORState(a, b))
  {}

  lemma ReadDocumentIsKeyed(data: DocJson)
    ensures MetadataKeyed(FromJson(data).chunks)
  {}
}
