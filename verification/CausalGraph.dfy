/** The causal walk of sera/memory/graph.py: a depth-bounded breadth-first search over `caused` edges. */
module CausalGraph {
  import opened Sequences
  import opened Wrappers

  datatype Relation = Relation(id: int, src: int, dst: int, kind: string, confidence: real, provenance: Option<int>)

  // entities: row id to name, names being unique; relations: the rows in ascending id order.
  datatype Tree = Tree(entities: map<int, string>, relations: seq<Relation>)

  datatype CausalLink = CausalLink(src: string, dst: string, confidence: real, provenance: Option<int>)

  datatype Direction = Upstream | Downstream

  // ---------- the graph being walked ----------

  function NearId(edge: Relation, dir: Direction): int {
    if dir == Upstream then edge.dst else edge.src
  }

  function FarId(edge: Relation, dir: Direction): int {
    if dir == Upstream then edge.src else edge.dst
  }

  function NameOf(tree: Tree, id: int): Option<string> {
    if id in tree.entities then Some(tree.entities[id]) else None
  }

  // A `caused` edge between two entities that both exist, near end at the given name.
  predicate Leaves(tree: Tree, edge: Relation, name: string, dir: Direction) {
    edge.kind == "caused" && NameOf(tree, NearId(edge, dir)) == Some(name)
  }

  predicate Usable(tree: Tree, edge: Relation, dir: Direction) {
    edge.kind == "caused" && NameOf(tree, NearId(edge, dir)).Some? && NameOf(tree, FarId(edge, dir)).Some?
  }

  function Near(tree: Tree, edge: Relation, dir: Direction): string
    requires Usable(tree, edge, dir)
  {
    NameOf(tree, NearId(edge, dir)).value
  }

  function Far(tree: Tree, edge: Relation, dir: Direction): string
    requires Usable(tree, edge, dir)
  {
    NameOf(tree, FarId(edge, dir)).value
  }

  function LinkOf(tree: Tree, edge: Relation, dir: Direction): CausalLink
    requires Usable(tree, edge, dir)
  {
    if dir == Upstream then CausalLink(Far(tree, edge, dir), Near(tree, edge, dir), edge.confidence, edge.provenance)
    else CausalLink(Near(tree, edge, dir), Far(tree, edge, dir), edge.confidence, edge.provenance)
  }

  /**
   A usable row is a `caused` row between two entities that exist, and its link, in either direction, goes from
   the name of its source to the name of its destination with the row's confidence and provenance.
   */
  lemma LinkIsRow(tree: Tree, edge: Relation, dir: Direction)
    ensures Usable(tree, edge, dir) <==> edge.kind == "caused" && edge.src in tree.entities && edge.dst in tree.entities
    ensures Usable(tree, edge, dir) ==>
      && LinkOf(tree, edge, dir) ==
         CausalLink(tree.entities[edge.src], tree.entities[edge.dst], edge.confidence, edge.provenance)
      && Near(tree, edge, dir) == tree.entities[if dir == Upstream then edge.dst else edge.src]
      && Far(tree, edge, dir) == tree.entities[if dir == Upstream then edge.src else edge.dst]
  {}

  // The names one usable edge away from some name in s.
  function Step(tree: Tree, dir: Direction, s: set<string>): set<string> {
    set edge | edge in tree.relations && Usable(tree, edge, dir) && Near(tree, edge, dir) in s :: Far(tree, edge, dir)
  }

  // Upstream leads from an effect to its causes, downstream from a cause to its effects.
  lemma StepIsRows(tree: Tree, s: set<string>, name: string)
    ensures name in Step(tree, Upstream, s) <==>
            exists row ::
              && row in tree.relations && row.kind == "caused" && row.src in tree.entities && row.dst in tree.entities
              && tree.entities[row.dst] in s && tree.entities[row.src] == name
    ensures name in Step(tree, Downstream, s) <==>
            exists row ::
              && row in tree.relations && row.kind == "caused" && row.src in tree.entities && row.dst in tree.entities
              && tree.entities[row.src] in s && tree.entities[row.dst] == name
  {
    hide Near, Far, Usable, LinkOf;
    forall row, dir
      ensures Usable(tree, row, dir) <==> row.kind == "caused" && row.src in tree.entities && row.dst in tree.entities
      ensures Usable(tree, row, dir) ==>
        && Near(tree, row, dir) == tree.entities[if dir == Upstream then row.dst else row.src]
        && Far(tree, row, dir) == tree.entities[if dir == Upstream then row.src else row.dst]
    {
      LinkIsRow(tree, row, dir);
    }
  }

  // The names at distance at most k from the start.
  function Within(tree: Tree, dir: Direction, start: string, k: nat): set<string> {
    if k == 0 then {start}
    else Within(tree, dir, start, k - 1) + Step(tree, dir, Within(tree, dir, start, k - 1))
  }

  // The name is at distance exactly k.
  predicate AtDistance(tree: Tree, dir: Direction, start: string, name: string, k: nat) {
    name in Within(tree, dir, start, k) && (k > 0 ==> name !in Within(tree, dir, start, k - 1))
  }

  // ---------- distance, by paths ----------

  predicate Connected(tree: Tree, dir: Direction, a: string, b: string) {
    exists edge :: edge in tree.relations && Usable(tree, edge, dir)
        && Near(tree, edge, dir) == a && Far(tree, edge, dir) == b
  }

  predicate IsPath(tree: Tree, dir: Direction, start: string, path: seq<string>) {
    path != [] && path[0] == start && forall i :: 0 < i < |path| ==> Connected(tree, dir, path[i - 1], path[i])
  }

  lemma {:induction false} WithinGrows(tree: Tree, dir: Direction, start: string, j: nat, k: nat)
    requires j <= k
    ensures Within(tree, dir, start, j) <= Within(tree, dir, start, k)
    decreases k
  {
    if j < k {
      WithinGrows(tree, dir, start, j, k - 1);
    }
  }

  // A name is within k exactly when a path of at most k edges leads to it.
  lemma {:induction false} WithinMeansPath(tree: Tree, dir: Direction, start: string, name: string, k: nat)
    ensures name in Within(tree, dir, start, k) <==>
            exists path :: IsPath(tree, dir, start, path) && |path| <= k + 1 && path[|path| - 1] == name
  {
    if name in Within(tree, dir, start, k) {
      PathTo(tree, dir, start, name, k);
    }
    if path :| IsPath(tree, dir, start, path) && |path| <= k + 1 && path[|path| - 1] == name {
      PathStaysWithin(tree, dir, start, path);
      WithinGrows(tree, dir, start, |path| - 1, k);
    }
  }

  lemma {:induction false} PathTo(tree: Tree, dir: Direction, start: string, name: string, k: nat)
    requires name in Within(tree, dir, start, k)
    ensures exists path :: IsPath(tree, dir, start, path) && |path| <= k + 1 && path[|path| - 1] == name
    decreases k
  {
    if k == 0 {
      assert IsPath(tree, dir, start, [start]);
    } else if name in Within(tree, dir, start, k - 1) {
      PathTo(tree, dir, start, name, k - 1);
    } else {
      var edge :| edge in tree.relations && Usable(tree, edge, dir)
        && Near(tree, edge, dir) in Within(tree, dir, start, k - 1) && Far(tree, edge, dir) == name;
      PathTo(tree, dir, start, Near(tree, edge, dir), k - 1);
      PathOneMore(tree, dir, start, edge, k);
    }
  }

  lemma PathOneMore(tree: Tree, dir: Direction, start: string, edge: Relation, k: nat)
    requires edge in tree.relations && Usable(tree, edge, dir)
    requires exists path :: IsPath(tree, dir, start, path) && |path| <= k && path[|path| - 1] == Near(tree, edge, dir)
    ensures exists path :: IsPath(tree, dir, start, path) && |path| <= k + 1 && path[|path| - 1] == Far(tree, edge, dir)
  {
    hide Usable, Near, Far;
    var path :| IsPath(tree, dir, start, path) && |path| <= k && path[|path| - 1] == Near(tree, edge, dir);
    var name := Far(tree, edge, dir);
    assert Connected(tree, dir, path[|path| - 1], name);
    assert IsPath(tree, dir, start, path + [name]);
  }

  lemma {:induction false} PathStaysWithin(tree: Tree, dir: Direction, start: string, path: seq<string>)
    requires IsPath(tree, dir, start, path)
    ensures path[|path| - 1] in Within(tree, dir, start, |path| - 1)
  {
    var last := |path| - 1;
    if last > 0 {
      assert IsPath(tree, dir, start, path[..last]);
      PathStaysWithin(tree, dir, start, path[..last]);
      assert Connected(tree, dir, path[last - 1], path[last]);
    }
  }

  lemma WithinNext(tree: Tree, dir: Direction, start: string, k: nat)
    ensures Within(tree, dir, start, k + 1) ==
            Within(tree, dir, start, k) + Step(tree, dir, Within(tree, dir, start, k))
  {}

  lemma {:induction false} FixedFrom(tree: Tree, dir: Direction, start: string, j: nat, k: nat)
    requires j <= k && Within(tree, dir, start, j + 1) == Within(tree, dir, start, j)
    ensures Within(tree, dir, start, k) == Within(tree, dir, start, j)
    decreases k
  {
    hide Within, Step;
    if j < k {
      FixedFrom(tree, dir, start, j, k - 1);
      WithinNext(tree, dir, start, j);
      WithinNext(tree, dir, start, k - 1);
    }
  }

  // ---------- the walk ----------

  // The rows of _caused_neighbors, in id order.
  function Neighbors(tree: Tree, rows: seq<Relation>, name: string, dir: Direction): seq<Relation> {
    if rows == [] then []
    else (if Leaves(tree, rows[0], name, dir) then [rows[0]] else []) + Neighbors(tree, rows[1..], name, dir)
  }

  predicate IdsAscend(rows: seq<Relation>) {
    forall i, j :: 0 <= i < j < |rows| ==> rows[i].id < rows[j].id
  }

  lemma {:induction false} NeighborsAreRows(tree: Tree, rows: seq<Relation>, name: string, dir: Direction)
    requires IdsAscend(rows)
    ensures forall edge :: edge in Neighbors(tree, rows, name, dir) <==> edge in rows && Leaves(tree, edge, name, dir)
    ensures IdsAscend(Neighbors(tree, rows, name, dir))
  {
    if rows != [] {
      NeighborsAreRows(tree, rows[1..], name, dir);
      var rest := Neighbors(tree, rows[1..], name, dir);
      forall i | 0 <= i < |rest|
        ensures rows[0].id < rest[i].id
      {
        assert rest[i] in rest;
        var k :| 0 <= k < |rows[1..]| && rows[1..][k] == rest[i];
        assert rows[k + 1] == rest[i];
      }
    }
  }

  // The edges out of one name, in id order.
  function RowsOf(tree: Tree, name: string, dir: Direction): seq<Relation> {
    UsableRows(tree, Neighbors(tree, tree.relations, name, dir), dir)
  }

  // The edges of all the names, name by name.
  function RowsOfAll(tree: Tree, names: seq<string>, dir: Direction): seq<Relation> {
    if names == [] then [] else
      RowsOfAll(tree, names[..|names| - 1], dir) + RowsOf(tree, names[|names| - 1], dir)
  }

  // The names of order, and then the new far ends of the edges as they are met.
  function Meet(tree: Tree, order: seq<string>, edges: seq<Relation>, dir: Direction): seq<string> {
    if edges == [] then order else
      var before, last := Meet(tree, order, edges[..|edges| - 1], dir), edges[|edges| - 1];
      if Usable(tree, last, dir) && Far(tree, last, dir) !in before then before + [Far(tree, last, dir)] else before
  }

  lemma MeetOneMore(tree: Tree, order: seq<string>, edges: seq<Relation>, edge: Relation, dir: Direction)
    ensures Meet(tree, order, edges + [edge], dir) ==
            var before := Meet(tree, order, edges, dir);
            if Usable(tree, edge, dir) && Far(tree, edge, dir) !in before
            then before + [Far(tree, edge, dir)] else before
  {
    assert (edges + [edge])[..|edges|] == edges;
  }

  lemma {:induction false} MeetInTwo(tree: Tree, order: seq<string>, e: seq<Relation>, f: seq<Relation>, dir: Direction)
    ensures Meet(tree, order, e + f, dir) == Meet(tree, Meet(tree, order, e, dir), f, dir)
    ensures order <= Meet(tree, order, f, dir)
  {
    hide Usable, Far;
    if f == [] {
      assert e + f == e;
    } else {
      var front, last := f[..|f| - 1], f[|f| - 1];
      MeetInTwo(tree, order, e, front, dir);
      assert e + f == (e + front) + [last] && f == front + [last];
      MeetOneMore(tree, order, e + front, last, dir);
      MeetOneMore(tree, Meet(tree, order, e, dir), front, last, dir);
    }
  }

  lemma {:induction false} RowsOfAllConcat(tree: Tree, a: seq<string>, b: seq<string>, dir: Direction)
    ensures RowsOfAll(tree, a + b, dir) == RowsOfAll(tree, a, dir) + RowsOfAll(tree, b, dir)
  {
    hide RowsOf;
    if b == [] {
      assert a + b == a;
    } else {
      var front := b[..|b| - 1];
      RowsOfAllConcat(tree, a, front, dir);
      assert (a + b)[..|a + b| - 1] == a + front;
    }
  }

  lemma RowsOfOneMore(tree: Tree, names: seq<string>, i: nat, dir: Direction)
    requires i < |names|
    ensures RowsOfAll(tree, names[..i + 1], dir) == RowsOfAll(tree, names[..i], dir) + RowsOf(tree, names[i], dir)
  {
    hide RowsOf;
    assert names[..i + 1][..i] == names[..i];
  }

  // One more edge in the queue of the names that have been met.
  lemma QueueGrows(
    tree: Tree, order: seq<string>, known: seq<string>, visited: set<string>, edges: seq<Relation>, edge: Relation,
    dir: Direction)
    requires known == Meet(tree, order, edges, dir) && Elements(known) == visited && Usable(tree, edge, dir)
    ensures var far := Far(tree, edge, dir);
            var more := if far in visited then known else known + [far];
      more == Meet(tree, order, edges + [edge], dir) && Elements(more) == visited + {far}
  {
    hide Usable, Far;
    MeetOneMore(tree, order, edges, edge, dir);
  }

  /**
   Breadth-first order: the edges are those of the names, name by name and by id within a name, and the names are the
   start and the far ends in the order in which the edges meet them.
   */
  predicate InBreadthFirstOrder(tree: Tree, start: string, names: seq<string>, edges: seq<Relation>, dir: Direction) {
    edges == RowsOfAll(tree, names, dir) && names <= Meet(tree, [start], edges, dir)
  }

  // links is the links of edges, one by one.
  predicate LinksOf(tree: Tree, dir: Direction, edges: seq<Relation>, links: seq<CausalLink>) {
    |links| == |edges|
    && forall i :: 0 <= i < |edges| ==> Usable(tree, edges[i], dir) && links[i] == LinkOf(tree, edges[i], dir)
  }

  // The links in terms of the rows, whatever the direction.
  predicate IsRows(tree: Tree, edges: seq<Relation>, links: seq<CausalLink>) {
    |links| == |edges|
    && forall i :: 0 <= i < |edges| ==>
         && edges[i].kind == "caused" && edges[i].src in tree.entities && edges[i].dst in tree.entities
         && links[i].src == tree.entities[edges[i].src] && links[i].dst == tree.entities[edges[i].dst]
         && links[i].confidence == edges[i].confidence && links[i].provenance == edges[i].provenance
  }

  lemma LinksAreRows(tree: Tree, dir: Direction, edges: seq<Relation>, links: seq<CausalLink>)
    requires LinksOf(tree, dir, edges, links)
    ensures IsRows(tree, edges, links)
  {
    forall i | 0 <= i < |edges| ensures links[i] == LinkOf(tree, edges[i], dir) && Usable(tree, edges[i], dir) {
      LinkIsRow(tree, edges[i], dir);
    }
  }

  // edges lists, each once, the usable edges whose near end is in s.
  ghost predicate EdgesFrom(tree: Tree, dir: Direction, s: set<string>, edges: seq<Relation>) {
    NoRepeats(edges)
    && forall edge :: edge in edges <==> edge in tree.relations && Usable(tree, edge, dir) && Near(tree, edge, dir) in s
  }

  function Elements(names: seq<string>): set<string> {
    set name | name in names
  }

  lemma EdgesFromUnion(tree: Tree, dir: Direction, a: set<string>, b: set<string>, e: seq<Relation>, f: seq<Relation>)
    requires a !! b && EdgesFrom(tree, dir, a, e) && EdgesFrom(tree, dir, b, f)
    ensures EdgesFrom(tree, dir, a + b, e + f)
  {
    forall i, j | 0 <= i < j < |e + f|
      ensures (e + f)[i] != (e + f)[j]
    {
      if i < |e| <= j {
        assert (e + f)[i] in e && (e + f)[j] in f;
      }
    }
  }

  lemma StepUnion(tree: Tree, dir: Direction, a: set<string>, b: set<string>)
    ensures Step(tree, dir, a + b) == Step(tree, dir, a) + Step(tree, dir, b)
  {}

  lemma LinksOfConcat(
    tree: Tree, dir: Direction, e: seq<Relation>, k: seq<CausalLink>, f: seq<Relation>, l: seq<CausalLink>)
    requires LinksOf(tree, dir, e, k) && LinksOf(tree, dir, f, l)
    ensures LinksOf(tree, dir, e + f, k + l)
  {}

  function FarEnds(tree: Tree, dir: Direction, edges: seq<Relation>): set<string> {
    set edge | edge in edges && Usable(tree, edge, dir) :: Far(tree, edge, dir)
  }

  lemma FarEndsAfter(tree: Tree, dir: Direction, edges: seq<Relation>, edge: Relation)
    requires Usable(tree, edge, dir)
    ensures FarEnds(tree, dir, edges + [edge]) == FarEnds(tree, dir, edges) + {Far(tree, edge, dir)}
  {
    hide Usable, Far;
    assert edge in edges + [edge];
    forall e | e in edges + [edge]
      ensures e in edges || e == edge
    {}
    forall e | e in edges
      ensures e in edges + [edge]
    {}
  }

  // The rows whose far end exists.
  function UsableRows(tree: Tree, rows: seq<Relation>, dir: Direction): seq<Relation> {
    if rows == [] then [] else
      var last := |rows| - 1;
      UsableRows(tree, rows[..last], dir) + if Usable(tree, rows[last], dir) then [rows[last]] else []
  }

  lemma {:induction false} UsableRowsMembers(tree: Tree, rows: seq<Relation>, dir: Direction)
    ensures forall edge :: edge in UsableRows(tree, rows, dir) <==> edge in rows && Usable(tree, edge, dir)
  {
    hide Usable;
    if rows != [] {
      var last := |rows| - 1;
      UsableRowsMembers(tree, rows[..last], dir);
      assert rows == rows[..last] + [rows[last]];
    }
  }

  lemma {:induction false} UsableRowsAscend(tree: Tree, rows: seq<Relation>, dir: Direction)
    requires IdsAscend(rows)
    ensures IdsAscend(UsableRows(tree, rows, dir))
  {
    hide Usable;
    if rows != [] {
      var last := |rows| - 1;
      UsableRowsAscend(tree, rows[..last], dir);
      UsableRowsMembers(tree, rows[..last], dir);
      var kept := UsableRows(tree, rows[..last], dir);
      forall i | 0 <= i < |kept|
        ensures kept[i].id < rows[last].id
      {
        assert kept[i] in rows[..last];
      }
    }
  }

  lemma RowsOfName(tree: Tree, name: string, dir: Direction)
    requires IdsAscend(tree.relations)
    ensures EdgesFrom(tree, dir, {name}, UsableRows(tree, Neighbors(tree, tree.relations, name, dir), dir))
  {
    var rows := Neighbors(tree, tree.relations, name, dir);
    NeighborsAreRows(tree, tree.relations, name, dir);
    UsableRowsMembers(tree, rows, dir);
    UsableRowsAscend(tree, rows, dir);
  }

  lemma StepFromEdges(tree: Tree, dir: Direction, s: set<string>, edges: seq<Relation>)
    requires EdgesFrom(tree, dir, s, edges)
    ensures FarEnds(tree, dir, edges) == Step(tree, dir, s)
  {}

  // How far the inner loop has come with the given edges.
  ghost predicate Expanded(
    tree: Tree, dir: Direction, visited: set<string>, next: seq<string>, order: seq<string>,
    edges: seq<Relation>, links: seq<CausalLink>, visited': set<string>, next': seq<string>)
  {
    LinksOf(tree, dir, edges, links) && Grown(visited, next, FarEnds(tree, dir, edges), visited', next')
    && order + next' == Meet(tree, order + next, edges, dir) && Elements(order + next') == visited'
  }

  lemma ExpandedOneMore(
    tree: Tree, dir: Direction, visited: set<string>, next: seq<string>, order: seq<string>,
    edges: seq<Relation>, links: seq<CausalLink>, visited': set<string>, next': seq<string>,
    edge: Relation, link: CausalLink)
    requires Expanded(tree, dir, visited, next, order, edges, links, visited', next')
    requires Usable(tree, edge, dir) && link == LinkOf(tree, edge, dir)
    ensures var far := Far(tree, edge, dir);
      if far in visited' then Expanded(tree, dir, visited, next, order, edges + [edge], links + [link], visited', next')
      else Expanded(tree, dir, visited, next, order, edges + [edge], links + [link], visited' + {far}, next' + [far])
  {
    hide FarEnds, Grown, LinksOf, Elements, Meet, Usable, Far, LinkOf;
    var far := Far(tree, edge, dir);
    LinkAppended(tree, dir, edges, links, edge, link);
    FarEndsAfter(tree, dir, edges, edge);
    GrowsBy(visited, next, FarEnds(tree, dir, edges), visited', next', far);
    QueueGrows(tree, order + next, order + next', visited', edges, edge, dir);
    assert (order + next') + [far] == order + (next' + [far]);
    assert far in visited' ==> visited' + {far} == visited';
  }

  // The inner loop: the edges of one frontier name.
  method ExpandName(tree: Tree, name: string, dir: Direction, visited: set<string>, next: seq<string>,
                    ghost order: seq<string>)
    returns (links: seq<CausalLink>, visited': set<string>, next': seq<string>, ghost edges: seq<Relation>)
    requires IdsAscend(tree.relations)
    requires NoRepeats(next) && Elements(next) <= visited && Elements(order + next) == visited
    ensures edges == RowsOf(tree, name, dir)
    ensures order + next' == Meet(tree, order + next, edges, dir) && Elements(order + next') == visited'
    ensures EdgesFrom(tree, dir, {name}, edges) && LinksOf(tree, dir, edges, links)
    ensures visited' == visited + Step(tree, dir, {name})
    ensures NoRepeats(next') && Elements(next') == Elements(next) + (visited' - visited)
  {
    var rows := Neighbors(tree, tree.relations, name, dir);
    NeighborsAreRows(tree, tree.relations, name, dir);
    RowsOfName(tree, name, dir);
    StepFromEdges(tree, dir, {name}, UsableRows(tree, rows, dir));
    NothingMet(tree, order + next, dir);
    NothingExpanded(tree, dir, visited, next);
    hide FarEnds, Step, EdgesFrom, Neighbors, Grown, UsableRows, LinksOf, NoRepeats, Elements, IdsAscend, Meet;
    links, visited', next', edges := [], visited, next, [];
    assert rows[..0] == [];
    for j := 0 to |rows|
      invariant edges == UsableRows(tree, rows[..j], dir)
      invariant Expanded(tree, dir, visited, next, order, edges, links, visited', next')
    {
      hide Expanded;
      var edge := rows[j];
      assert edge in rows;
      UsableRowsAfter(tree, rows, dir, j);
      var other := NameOf(tree, FarId(edge, dir));
      if other.Some? {
        var link := if dir == Upstream then CausalLink(other.value, name, edge.confidence, edge.provenance)
                    else CausalLink(name, other.value, edge.confidence, edge.provenance);
        ExpandedOneMore(tree, dir, visited, next, order, edges, links, visited', next', edge, link);
        links := links + [link];
        edges := edges + [edge];
        if other.value !in visited' {
          visited' := visited' + {other.value};
          next' := next' + [other.value];
        }
      }
    }
    assert rows[..|rows|] == rows;
    GrownMeans(visited, next, FarEnds(tree, dir, edges), visited', next');
  }

  lemma NothingMet(tree: Tree, order: seq<string>, dir: Direction)
    ensures Meet(tree, order, [], dir) == order && RowsOfAll(tree, [], dir) == []
  {}

  lemma UsableRowsAfter(tree: Tree, rows: seq<Relation>, dir: Direction, j: nat)
    requires j < |rows|
    ensures UsableRows(tree, rows[..j + 1], dir)
         == UsableRows(tree, rows[..j], dir) + if Usable(tree, rows[j], dir) then [rows[j]] else []
  {
    hide Usable;
    assert rows[..j + 1][..j] == rows[..j];
  }

  lemma LinkAppended(tree: Tree, dir: Direction, e: seq<Relation>, k: seq<CausalLink>, edge: Relation, link: CausalLink)
    requires LinksOf(tree, dir, e, k) && Usable(tree, edge, dir) && link == LinkOf(tree, edge, dir)
    ensures LinksOf(tree, dir, e + [edge], k + [link])
  {}

  // Meeting the names in met has grown the visited set and the next frontier.
  predicate Grown(
    visited: set<string>, next: seq<string>, met: set<string>, visited': set<string>, next': seq<string>)
  {
    NoRepeats(next') && Elements(next) <= visited
    && visited' == visited + met && Elements(next') == Elements(next) + (visited' - visited)
  }

  lemma GrowsBy(
    visited: set<string>, next: seq<string>, met: set<string>, visited': set<string>, next': seq<string>, name: string)
    requires Grown(visited, next, met, visited', next')
    ensures name in visited' ==> Grown(visited, next, met + {name}, visited', next')
    ensures name !in visited' ==> Grown(visited, next, met + {name}, visited' + {name}, next' + [name])
  {
    if name !in visited' {
      NameAppended(next', name);
    }
  }

  lemma GrownMeans(visited: set<string>, next: seq<string>, met: set<string>, visited': set<string>, next': seq<string>)
    requires Grown(visited, next, met, visited', next')
    ensures NoRepeats(next') && visited' == visited + met && Elements(next') == Elements(next) + (visited' - visited)
  {}

  lemma NothingExpanded(tree: Tree, dir: Direction, visited: set<string>, next: seq<string>)
    requires NoRepeats(next) && Elements(next) <= visited
    ensures UsableRows(tree, [], dir) == [] && LinksOf(tree, dir, [], [])
    ensures Grown(visited, next, FarEnds(tree, dir, []), visited, next)
  {}

  lemma NameAppended(names: seq<string>, name: string)
    requires NoRepeats(names) && name !in Elements(names)
    ensures NoRepeats(names + [name]) && Elements(names + [name]) == Elements(names) + {name}
  {}

  lemma NoEdges(tree: Tree, dir: Direction)
    ensures EdgesFrom(tree, dir, {}, []) && LinksOf(tree, dir, [], []) && Step(tree, dir, {}) == {}
    ensures NoRepeats<string>([])
  {}

  lemma OneMoreName(names: seq<string>, i: nat)
    requires NoRepeats(names) && i < |names|
    ensures Elements(names[..i + 1]) == Elements(names[..i]) + {names[i]} && names[i] !in Elements(names[..i])
  {}

  lemma NoNames()
    ensures Elements([]) == {}
  {}

  // How far the middle loop has come with the first names of a frontier.
  ghost predicate Leveled(
    tree: Tree, dir: Direction, visited: set<string>, order: seq<string>, done: seq<string>,
    edges: seq<Relation>, links: seq<CausalLink>, visited': set<string>, next: seq<string>)
  {
    EdgesFrom(tree, dir, Elements(done), edges) && LinksOf(tree, dir, edges, links)
    && edges == RowsOfAll(tree, done, dir)
    && visited' == visited + Step(tree, dir, Elements(done))
    && NoRepeats(next) && Elements(next) == visited' - visited
    && order + next == Meet(tree, order, edges, dir) && Elements(order + next) == visited'
  }

  lemma LeveledOneMore(
    tree: Tree, dir: Direction, visited: set<string>, order: seq<string>, frontier: seq<string>, i: nat,
    edges: seq<Relation>, links: seq<CausalLink>, visited': set<string>, next: seq<string>,
    moreEdges: seq<Relation>, more: seq<CausalLink>, visited2: set<string>, next2: seq<string>)
    requires NoRepeats(frontier) && i < |frontier|
    requires Leveled(tree, dir, visited, order, frontier[..i], edges, links, visited', next)
    requires moreEdges == RowsOf(tree, frontier[i], dir)
    requires order + next2 == Meet(tree, order + next, moreEdges, dir) && Elements(order + next2) == visited2
    requires EdgesFrom(tree, dir, {frontier[i]}, moreEdges) && LinksOf(tree, dir, moreEdges, more)
    requires visited2 == visited' + Step(tree, dir, {frontier[i]})
    requires NoRepeats(next2) && Elements(next2) == Elements(next) + (visited2 - visited')
    ensures Leveled(tree, dir, visited, order, frontier[..i + 1], edges + moreEdges, links + more, visited2, next2)
  {
    hide EdgesFrom, LinksOf, Step, NoRepeats, Meet, RowsOfAll, RowsOf, Elements;
    OneMoreName(frontier, i);
    RowsOfOneMore(tree, frontier, i, dir);
    MeetInTwo(tree, order, edges, moreEdges, dir);
    StepUnion(tree, dir, Elements(frontier[..i]), {frontier[i]});
    EdgesFromUnion(tree, dir, Elements(frontier[..i]), {frontier[i]}, edges, moreEdges);
    LinksOfConcat(tree, dir, edges, links, moreEdges, more);
  }

  lemma NothingLeveled(tree: Tree, dir: Direction, visited: set<string>, order: seq<string>)
    requires Elements(order) == visited
    ensures Leveled(tree, dir, visited, order, [], [], [], visited, [])
  {
    NoEdges(tree, dir);
    NothingMet(tree, order, dir);
    assert order + [] == order;
  }

  // The middle loop: one frontier.
  method ExpandLevel(tree: Tree, frontier: seq<string>, dir: Direction, visited: set<string>, ghost order: seq<string>)
    returns (links: seq<CausalLink>, visited': set<string>, next: seq<string>, ghost edges: seq<Relation>)
    requires IdsAscend(tree.relations) && NoRepeats(frontier) && Elements(order) == visited
    ensures edges == RowsOfAll(tree, frontier, dir)
    ensures order + next == Meet(tree, order, edges, dir) && Elements(order + next) == visited'
    ensures EdgesFrom(tree, dir, Elements(frontier), edges) && LinksOf(tree, dir, edges, links)
    ensures visited' == visited + Step(tree, dir, Elements(frontier))
    ensures NoRepeats(next) && Elements(next) == visited' - visited
  {
    hide EdgesFrom, LinksOf, Step, NoRepeats, Meet, RowsOfAll, RowsOf, Elements;
    NothingLeveled(tree, dir, visited, order);
    links, visited', next, edges := [], visited, [], [];
    assert frontier[..0] == [];
    for i := 0 to |frontier|
      invariant Leveled(tree, dir, visited, order, frontier[..i], edges, links, visited', next)
    {
      var more, visited2, next2;
      ghost var moreEdges;
      more, visited2, next2, moreEdges := ExpandName(tree, frontier[i], dir, visited', next, order);
      LeveledOneMore(tree, dir, visited, order, frontier, i, edges, links,
          visited', next, moreEdges, more, visited2, next2);
      links, visited', next := links + more, visited2, next2;
      edges := edges + moreEdges;
    }
    assert frontier[..|frontier|] == frontier;
  }

  // The frontier of round d: the names at distance exactly d.
  function Ring(tree: Tree, dir: Direction, start: string, d: nat): set<string> {
    if d == 0 then {start} else Within(tree, dir, start, d) - Within(tree, dir, start, d - 1)
  }

  // The names whose edges are out before round d.
  function Done(tree: Tree, dir: Direction, start: string, d: nat): set<string> {
    if d == 0 then {} else Within(tree, dir, start, d - 1)
  }

  lemma RoundAdds(tree: Tree, dir: Direction, start: string, d: nat)
    ensures Within(tree, dir, start, d) + Step(tree, dir, Ring(tree, dir, start, d)) == Within(tree, dir, start, d + 1)
    ensures Done(tree, dir, start, d) + Ring(tree, dir, start, d) == Done(tree, dir, start, d + 1)
    ensures Done(tree, dir, start, d) !! Ring(tree, dir, start, d)
    ensures Within(tree, dir, start, d + 1) - Within(tree, dir, start, d) == Ring(tree, dir, start, d + 1)
  {
    if d > 0 {
      WithinGrows(tree, dir, start, d - 1, d);
      var inner := Within(tree, dir, start, d - 1);
      assert inner + Ring(tree, dir, start, d) == Within(tree, dir, start, d);
      StepUnion(tree, dir, inner, Ring(tree, dir, start, d));
    }
  }

  // levels gives the distance of the near end of each edge.
  ghost predicate Distances(tree: Tree, dir: Direction, start: string, edges: seq<Relation>, levels: seq<nat>) {
    |levels| == |edges|
    && forall i :: 0 <= i < |edges| ==>
         Usable(tree, edges[i], dir) && AtDistance(tree, dir, start, Near(tree, edges[i], dir), levels[i])
  }

  predicate Nondecreasing(levels: seq<nat>) {
    forall i, j :: 0 <= i < j < |levels| ==> levels[i] <= levels[j]
  }

  lemma RingIsAtDistance(tree: Tree, dir: Direction, start: string, d: nat, edges: seq<Relation>)
    requires EdgesFrom(tree, dir, Ring(tree, dir, start, d), edges)
    ensures Distances(tree, dir, start, edges, seq(|edges|, _ => d))
  {
    forall i | 0 <= i < |edges|
      ensures Usable(tree, edges[i], dir) && AtDistance(tree, dir, start, Near(tree, edges[i], dir), d)
    {
      assert edges[i] in edges;
    }
  }

  // levels is nondecreasing and stays below d.
  ghost predicate Layered(tree: Tree, dir: Direction, start: string, edges: seq<Relation>, levels: seq<nat>, d: nat) {
    Distances(tree, dir, start, edges, levels) && Nondecreasing(levels)
    && forall i :: 0 <= i < |levels| ==> levels[i] < d
  }

  lemma LayerAdded(
    tree: Tree, dir: Direction, start: string, d: nat, edges: seq<Relation>, levels: seq<nat>, more: seq<Relation>)
    requires Layered(tree, dir, start, edges, levels, d) && EdgesFrom(tree, dir, Ring(tree, dir, start, d), more)
    ensures Layered(tree, dir, start, edges + more, levels + seq(|more|, _ => d), d + 1)
  {
    RingIsAtDistance(tree, dir, start, d, more);
    hide AtDistance, EdgesFrom, Usable;
  }

  lemma EmptyRing(tree: Tree, dir: Direction, start: string, d: nat, depth: nat)
    requires Ring(tree, dir, start, d) == {} && d < depth
    ensures Done(tree, dir, start, d) == Within(tree, dir, start, depth - 1)
  {
    WithinGrows(tree, dir, start, d - 1, d);
    FixedFrom(tree, dir, start, d - 1, depth - 1);
  }

  /**
   The walk returns the links of exactly the usable `caused` edges whose near end is at distance less than
   depth from the start, each edge once, in breadth-first order and so in nondecreasing order of that distance. None
   stands for the refusal of an unknown direction.
   */
  method CausalChain(tree: Tree, start: string, depth: int, direction: string)
    returns (chain: Option<seq<CausalLink>>, ghost edges: seq<Relation>,
        ghost levels: seq<nat>, ghost names: seq<string>)
    requires IdsAscend(tree.relations)
    ensures chain.None? <==> direction != "upstream" && direction != "downstream"
    ensures chain.Some? ==> var dir := if direction == "upstream" then Upstream else Downstream;
      && LinksOf(tree, dir, edges, chain.value)
      && IsRows(tree, edges, chain.value)
      && EdgesFrom(tree, dir, if depth <= 0 then {} else Within(tree, dir, start, depth - 1), edges)
      && Distances(tree, dir, start, edges, levels) && Nondecreasing(levels)
      && InBreadthFirstOrder(tree, start, names, edges, dir)
  {
    hide Meet, RowsOfAll, EdgesFrom, LinksOf, Within, Ring, Step, Done, Distances,
      Nondecreasing, Layered, IdsAscend, NoRepeats;
    if direction != "upstream" && direction != "downstream" {
      return None, [], [], [];
    }
    var dir := if direction == "upstream" then Upstream else Downstream;
    var visited, frontier: seq<string> := {start}, [start];
    var out: seq<CausalLink> := [];
    edges, levels, names := [], [], [];
    NothingMet(tree, [start], dir);
    NoEdges(tree, dir);
    RingAtStart(tree, dir, start);
    DoneIs(tree, dir, start, 0);
    OneName(start);
    var d := 0;
    while d < depth
      invariant 0 <= d && (d <= depth || d == 0)
      invariant visited == Within(tree, dir, start, d)
      invariant NoRepeats(frontier) && Elements(frontier) == Ring(tree, dir, start, d)
      invariant LinksOf(tree, dir, edges, out) && EdgesFrom(tree, dir, Done(tree, dir, start, d), edges)
      invariant Layered(tree, dir, start, edges, levels, d)
      invariant edges == RowsOfAll(tree, names, dir)
      invariant names + frontier == Meet(tree, [start], edges, dir) && Elements(names + frontier) == visited
    {
      var more, next;
      ghost var moreEdges;
      more, visited, next, moreEdges := ExpandLevel(tree, frontier, dir, visited, names + frontier);
      RowsOfAllConcat(tree, names, frontier, dir);
      MeetInTwo(tree, [start], edges, moreEdges, dir);
      RoundAdds(tree, dir, start, d);
      LayerAdded(tree, dir, start, d, edges, levels, moreEdges);
      EdgesFromUnion(tree, dir, Done(tree, dir, start, d), Elements(frontier), edges, moreEdges);
      LinksOfConcat(tree, dir, edges, out, moreEdges, more);
      out := out + more;
      edges := edges + moreEdges;
      levels := levels + seq(|moreEdges|, _ => d);
      names := names + frontier;
      frontier := next;
      d := d + 1;
      if frontier == [] {
        if d < depth {
          EmptyRing(tree, dir, start, d, depth);
        }
        break;
      }
    }
    DoneIs(tree, dir, start, d);
    LayeredIs(tree, dir, start, edges, levels, d);
    LinksAreRows(tree, dir, edges, out);
    chain := Some(out);
  }

  lemma OneName(name: string)
    ensures NoRepeats([name]) && Elements([name]) == {name}
  {}

  lemma DoneIs(tree: Tree, dir: Direction, start: string, d: nat)
    ensures Done(tree, dir, start, d) == if d == 0 then {} else Within(tree, dir, start, d - 1)
  {}

  lemma LayeredIs(tree: Tree, dir: Direction, start: string, edges: seq<Relation>, levels: seq<nat>, d: nat)
    requires Layered(tree, dir, start, edges, levels, d)
    ensures Distances(tree, dir, start, edges, levels) && Nondecreasing(levels)
  {}

  lemma RingAtStart(tree: Tree, dir: Direction, start: string)
    ensures Within(tree, dir, start, 0) == {start} && Ring(tree, dir, start, 0) == {start}
    ensures Layered(tree, dir, start, [], [], 0)
  {}
}
