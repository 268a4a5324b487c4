/** The layered left-to-right layout of a workflow graph: breadth-first layers from the entry,
    rows ordered by the barycenter of their predecessors, and the boxes that come of it. */
module GraphLayout {
  import opened Sequences
  import Sorting

  datatype Edge = Edge(from: string, to: string)

  datatype Graph = Graph(entry: string, nodes: seq<string>, edges: seq<Edge>)

  datatype Pos = Pos(x: int, y: int, layer: nat, row: nat)

  const END: string := "__end__"

  const NODE_W := 220
  const NODE_H := 64
  const COL_GAP := 90
  const ROW_GAP := 36
  const PAD := 40
  const END_W := 34

  // ---- distance from the entry ----

  /** A walk of n edges, none of them to the end marker, leads from the entry to id. */
  ghost predicate Reach(g: Graph, n: nat, id: string) {
    if n == 0 then id == g.entry
    else exists e :: e in g.edges && e.to == id && id != END && Reach(g, n - 1, e.from)
  }

  ghost predicate Reachable(g: Graph, id: string) {
    exists n: nat :: Reach(g, n, id)
  }

  ghost predicate IsDistance(g: Graph, n: nat, id: string) {
    Reach(g, n, id) && forall m: nat :: m < n ==> !Reach(g, m, id)
  }

  /** Every id a walk can visit. */
  ghost function Ids(g: Graph): set<string> {
    {g.entry} + set e | e in g.edges :: e.to
  }

  // ---- the search ----

  lemma {:induction false} DistinctFits<T>(s: seq<T>, all: set<T>)
    requires Distinct(s) && forall x :: x in s ==> x in all
    ensures |s| <= |all|
    decreases |s|
  {
    if s != [] {
      var front, last := s[..|s| - 1], s[|s| - 1];
      forall x | x in front ensures x in all - {last} {
        var i :| 0 <= i < |front| && front[i] == x;
        assert s[i] == x;
      }
      DistinctFits(front, all - {last});
    }
  }

  /** The queue holds exactly the discovered ids, each once, in order of layer. */
  ghost predicate Queued(g: Graph, queue: seq<string>, layer: map<string, nat>) {
    Distinct(queue)
    && (forall id :: id in queue <==> id in layer)
    && g.entry in layer
    && (forall id :: id in layer ==> id in Ids(g))
    && (forall j :: 0 <= j < |queue| ==> queue[j] in layer)
    && (forall i, j :: 0 <= i < j < |queue| ==> layer[queue[i]] <= layer[queue[j]])
  }

  /** Every discovered layer is the length of a walk. */
  ghost predicate Sound(g: Graph, layer: map<string, nat>) {
    forall id :: id in layer ==> Reach(g, layer[id], id)
  }

  /** The target of an edge is discovered, no further than one layer past its source. */
  ghost predicate Followed(layer: map<string, nat>, e: Edge) {
    e.to != END ==> e.from in layer && e.to in layer && layer[e.to] <= layer[e.from] + 1
  }

  /** The edges leaving the first `head` ids of the queue have all been followed. */
  ghost predicate Explored(g: Graph, queue: seq<string>, layer: map<string, nat>, head: nat) {
    forall j, e :: 0 <= j < head <= |queue| && e in g.edges && e.from == queue[j] ==> Followed(layer, e)
  }

  lemma {:induction false} QueueFits(g: Graph, queue: seq<string>, layer: map<string, nat>)
    requires Queued(g, queue, layer)
    ensures |queue| <= |Ids(g)|
  {
    DistinctFits(queue, Ids(g));
  }

  /** Nothing known so far changes. */
  ghost predicate Grows(queue: seq<string>, layer: map<string, nat>, queue': seq<string>, layer': map<string, nat>) {
    queue <= queue' && forall id :: id in layer ==> id in layer' && layer'[id] == layer[id]
  }

  ghost predicate Bounded(queue: seq<string>, layer: map<string, nat>, l: nat) {
    forall j :: 0 <= j < |queue| ==> queue[j] in layer && layer[queue[j]] <= l
  }

  /** Follows one edge out of an id at layer l. */
  method Follow(g: Graph, e: Edge, l: nat, queue0: seq<string>, layer0: map<string, nat>)
    returns (queue: seq<string>, layer: map<string, nat>)
    requires e in g.edges && e.from in layer0 && layer0[e.from] == l && e.to != END
    requires Queued(g, queue0, layer0) && Sound(g, layer0) && Bounded(queue0, layer0, l + 1)
    ensures Queued(g, queue, layer) && Sound(g, layer) && Bounded(queue, layer, l + 1)
    ensures Grows(queue0, layer0, queue, layer)
    ensures Followed(layer, e)
  {
    queue, layer := queue0, layer0;
    if e.to !in layer {
      assert Reach(g, l + 1, e.to) by {
        assert e in g.edges && Reach(g, l, e.from);
      }
      QueuedStep(g, queue, layer, e.to, l + 1);
      layer := layer[e.to := l + 1];
      queue := queue + [e.to];
    } else {
      assert e.to in queue;
    }
  }

  lemma {:induction false} StillFollowed(queue: seq<string>, layer: map<string, nat>, queue': seq<string>,
                                         layer': map<string, nat>, e: Edge)
    requires Followed(layer, e) && Grows(queue, layer, queue', layer')
    ensures Followed(layer', e)
  {
  }

  /** Follows every edge leaving the first id not yet expanded. */
  method Expand(g: Graph, head: nat, queue0: seq<string>, layer0: map<string, nat>)
    returns (queue: seq<string>, layer: map<string, nat>)
    requires Queued(g, queue0, layer0) && Sound(g, layer0)
    requires head < |queue0| && Explored(g, queue0, layer0, head)
    requires Bounded(queue0, layer0, layer0[queue0[head]] + 1)
    ensures Queued(g, queue, layer) && Sound(g, layer)
    ensures Grows(queue0, layer0, queue, layer)
    ensures head < |queue| && Explored(g, queue, layer, head + 1)
    ensures Bounded(queue, layer, layer[queue[head]] + 1)
  {
    hide Queued, Sound, Bounded;
    queue, layer := queue0, layer0;
    var id := queue[head];
    AtHead(g, queue0, layer0, head);
    var l := layer[id];
    for k := 0 to |g.edges|
      invariant Queued(g, queue, layer) && Sound(g, layer) && Bounded(queue, layer, l + 1)
      invariant Grows(queue0, layer0, queue, layer)
      invariant forall j :: 0 <= j < k && g.edges[j].from == id ==> Followed(layer, g.edges[j])
    {
      var e := g.edges[k];
      if e.from != id || e.to == END { continue; }
      ghost var before, known := queue, layer;
      queue, layer := Follow(g, e, l, queue, layer);
      forall j | 0 <= j < k && g.edges[j].from == id ensures Followed(layer, g.edges[j]) {
        StillFollowed(before, known, queue, layer, g.edges[j]);
      }
    }
    assert queue[head] == id;
    forall j, e | 0 <= j < head + 1 && e in g.edges && e.from == queue[j] ensures Followed(layer, e) {
      if j < head {
        assert queue0[j] == queue[j];
        StillFollowed(queue0, layer0, queue, layer, e);
      }
    }
  }

  lemma {:induction false} AtHead(g: Graph, queue: seq<string>, layer: map<string, nat>, head: nat)
    requires Queued(g, queue, layer) && head < |queue|
    ensures queue[head] in layer
  {
  }

  lemma {:induction false} QueuedStep(g: Graph, queue: seq<string>, layer: map<string, nat>, id: string, l: nat)
    requires Queued(g, queue, layer) && id !in layer && id in Ids(g)
    requires forall j :: 0 <= j < |queue| ==> layer[queue[j]] <= l
    ensures Queued(g, queue + [id], layer[id := l])
  {
  }

  /** Breadth-first layers: exactly the reachable ids, each at its distance from the entry. */
  method BreadthFirst(g: Graph) returns (layer: map<string, nat>)
    ensures forall id :: id in layer <==> Reachable(g, id)
    ensures forall id :: id in layer ==> IsDistance(g, layer[id], id)
  {
    layer := map[g.entry := 0];
    var queue := [g.entry];
    var head := 0;
    while head < |queue|
      invariant head <= |queue|
      invariant Queued(g, queue, layer) && Sound(g, layer)
      invariant g.entry in layer && layer[g.entry] == 0
      invariant Explored(g, queue, layer, head)
      invariant head < |queue| ==> Bounded(queue, layer, layer[queue[head]] + 1)
      decreases |Ids(g)| - head
    {
      QueueFits(g, queue, layer);
      queue, layer := Expand(g, head, queue, layer);
      if head + 1 < |queue| { NextBound(g, queue, layer, head); }
      head := head + 1;
    }
    Complete(g, queue, layer);
  }

  lemma {:induction false} NextBound(g: Graph, queue: seq<string>, layer: map<string, nat>, head: nat)
    requires Queued(g, queue, layer) && head + 1 < |queue|
    requires Bounded(queue, layer, layer[queue[head]] + 1)
    ensures Bounded(queue, layer, layer[queue[head + 1]] + 1)
  {
  }

  /** Once every discovered id is expanded, no walk leads anywhere new, or anywhere sooner. */
  lemma {:induction false} NoSooner(g: Graph, queue: seq<string>, layer: map<string, nat>, n: nat, id: string)
    requires Queued(g, queue, layer) && layer[g.entry] == 0 && Explored(g, queue, layer, |queue|)
    requires Reach(g, n, id)
    ensures id in layer && layer[id] <= n
    decreases n
  {
    if n > 0 {
      var e :| e in g.edges && e.to == id && id != END && Reach(g, n - 1, e.from);
      NoSooner(g, queue, layer, n - 1, e.from);
      assert e.from in queue;
      var j :| 0 <= j < |queue| && queue[j] == e.from;
      assert Followed(layer, e);
    }
  }

  lemma {:induction false} Complete(g: Graph, queue: seq<string>, layer: map<string, nat>)
    requires Queued(g, queue, layer) && Sound(g, layer) && Explored(g, queue, layer, |queue|)
    requires layer[g.entry] == 0
    ensures forall id :: id in layer <==> Reachable(g, id)
    ensures forall id :: id in layer ==> IsDistance(g, layer[id], id)
  {
    forall id ensures id in layer <==> Reachable(g, id) {
      if Reachable(g, id) {
        var n: nat :| Reach(g, n, id);
        NoSooner(g, queue, layer, n, id);
      }
    }
    forall id, m: nat | id in layer && m < layer[id] ensures !Reach(g, m, id) {
      if Reach(g, m, id) { NoSooner(g, queue, layer, m, id); }
    }
  }

  // ---- columns and rows ----

  /** The ids of one layer, in the order the graph lists them. */
  function Column(nodes: seq<string>, layer: map<string, nat>, l: nat): seq<string> {
    if nodes == [] then []
    else
      var front, last := nodes[..|nodes| - 1], nodes[|nodes| - 1];
      Column(front, layer, l) + (if last in layer && layer[last] == l then [last] else [])
  }

  lemma {:induction false} InColumn(nodes: seq<string>, layer: map<string, nat>, l: nat, id: string)
    ensures id in Column(nodes, layer, l) <==> id in nodes && id in layer && layer[id] == l
  {
    if nodes != [] {
      InColumn(nodes[..|nodes| - 1], layer, l, id);
      assert nodes == nodes[..|nodes| - 1] + [nodes[|nodes| - 1]];
    }
  }

  lemma {:induction false} ColumnDistinct(nodes: seq<string>, layer: map<string, nat>, l: nat)
    requires Distinct(nodes)
    ensures Distinct(Column(nodes, layer, l))
  {
    if nodes != [] {
      var front, last := nodes[..|nodes| - 1], nodes[|nodes| - 1];
      ColumnDistinct(front, layer, l);
      InColumn(front, layer, l, last);
      assert last !in front;
    }
  }

  /** The sources of the edges into id, in edge order; the end marker has none. */
  function Preds(edges: seq<Edge>, id: string): seq<string> {
    if edges == [] then []
    else
      var front, e := edges[..|edges| - 1], edges[|edges| - 1];
      Preds(front, id) + (if e.to == id && id != END then [e.from] else [])
  }

  /** The predecessors that already have a row. */
  function Placed(preds: seq<string>, rows: map<string, nat>): (r: seq<string>)
    ensures forall j :: 0 <= j < |r| ==> r[j] in rows
  {
    if preds == [] then []
    else
      var front, last := preds[..|preds| - 1], preds[|preds| - 1];
      Placed(front, rows) + (if last in rows then [last] else [])
  }

  function RowSum(ids: seq<string>, rows: map<string, nat>): nat
    requires forall j :: 0 <= j < |ids| ==> ids[j] in rows
  {
    if ids == [] then 0 else RowSum(ids[..|ids| - 1], rows) + rows[ids[|ids| - 1]]
  }

  /** The barycenter of an id's placed predecessors; -1 when none is placed. */
  function Score(edges: seq<Edge>, rows: map<string, nat>, id: string): real {
    var preds := Placed(Preds(edges, id), rows);
    if preds == [] then -1.0 else RowSum(preds, rows) as real / |preds| as real
  }

  datatype Scored = Scored(id: string, score: real)

  /** By barycenter, ties by name. */
  predicate Precedes(collate: (string, string) -> bool, a: Scored, b: Scored) {
    a.score < b.score || (a.score == b.score && collate(a.id, b.id))
  }

  function ByScore(collate: (string, string) -> bool): (Scored, Scored) -> bool {
    (a: Scored, b: Scored) => Precedes(collate, a, b)
  }

  /** The rows of the columns left of l: what the ordering of column l is computed from. */
  ghost function LeftOf(rows: map<string, nat>, layer: map<string, nat>, l: nat): map<string, nat> {
    map id | id in rows && id in layer && layer[id] < l :: rows[id]
  }

  /** Column l is ranked: rows below the column's size, one for each id, ordered by the barycenter of the predecessors
      in columns further left, ties by name. */
  ghost predicate ColumnRanked(g: Graph, layer: map<string, nat>, rows: map<string, nat>,
                               collate: (string, string) -> bool, l: nat) {
    var ids, left := Column(g.nodes, layer, l), LeftOf(rows, layer, l);
    (forall a :: a in ids ==> a in rows && rows[a] < |ids|)
    && (forall a, b :: a in ids && b in ids && a != b ==>
          rows[a] != rows[b]
          && (rows[a] < rows[b] ==>
                Precedes(collate, Scored(a, Score(g.edges, left, a)), Scored(b, Score(g.edges, left, b)))))
  }

  /** What a map of lists holds under a key, present or not. */
  function Listed<K, V>(m: map<K, seq<V>>, k: K): seq<V> {
    if k in m then m[k] else []
  }

  lemma {:induction false} ColumnStep(nodes: seq<string>, layer: map<string, nat>, k: nat, l: nat)
    requires k < |nodes| && nodes[k] in layer
    ensures Column(nodes[..k + 1], layer, l)
            == if layer[nodes[k]] == l then Column(nodes[..k], layer, l) + [nodes[k]] else Column(nodes[..k], layer, l)
  {
    assert nodes[..k + 1][..k] == nodes[..k];
  }

  /** Sorts the nodes into their columns; keys are the column numbers, in order of first use. */
  method BuildColumns(nodes: seq<string>, layer: map<string, nat>)
    returns (keys: seq<nat>, cols: map<nat, seq<string>>)
    requires forall id :: id in nodes ==> id in layer
    ensures forall l: nat :: Column(nodes, layer, l) == Listed(cols, l)
    ensures Distinct(keys) && (forall l :: l in keys <==> l in cols)
    ensures forall id :: id in nodes ==> layer[id] in cols
  {
    hide Column;
    keys, cols := [], map[];
    forall l: nat ensures Column(nodes[..0], layer, l) == [] { NoColumn(layer, l); }
    for k := 0 to |nodes|
      invariant forall l: nat :: Column(nodes[..k], layer, l) == Listed(cols, l)
      invariant Distinct(keys) && (forall l :: l in keys <==> l in cols)
      invariant forall j :: 0 <= j < k ==> layer[nodes[j]] in cols
    {
      var id := nodes[k];
      var l := layer[id];
      if l !in cols { keys := keys + [l]; }
      ghost var before := cols;
      cols := cols[l := Listed(cols, l) + [id]];
      forall m: nat ensures Column(nodes[..k + 1], layer, m) == Listed(cols, m) {
        ColumnStep(nodes, layer, k, m);
        assert Column(nodes[..k], layer, m) == Listed(before, m);
      }
    }
    assert nodes[..|nodes|] == nodes;
  }

  lemma {:induction false} NoColumn(layer: map<string, nat>, l: nat)
    ensures Column([], layer, l) == []
  {
  }

  method BuildPreds(edges: seq<Edge>) returns (predOf: map<string, seq<string>>)
    ensures forall id :: Preds(edges, id) == Listed(predOf, id)
  {
    predOf := map[];
    for k := 0 to |edges|
      invariant forall id :: Preds(edges[..k], id) == Listed(predOf, id)
    {
      var e := edges[k];
      assert edges[..k + 1][..k] == edges[..k];
      if e.to == END { continue; }
      predOf := predOf[e.to := Listed(predOf, e.to) + [e.from]];
    }
    assert edges[..|edges|] == edges;
  }

  lemma {:induction false} ByScoreIsPreorder(collate: (string, string) -> bool)
    requires Sorting.TotalPreorder(collate)
    ensures Sorting.TotalPreorder(ByScore(collate))
  {
  }

  /** The column's ids with the barycenters of their placed predecessors. */
  method ScoreColumn(g: Graph, predOf: map<string, seq<string>>, ids: seq<string>, rows: map<string, nat>)
    returns (scored: seq<Scored>)
    requires forall id :: Preds(g.edges, id) == Listed(predOf, id)
    ensures |scored| == |ids|
    ensures forall j :: 0 <= j < |ids| ==> scored[j] == Scored(ids[j], Score(g.edges, rows, ids[j]))
  {
    scored := [];
    for k := 0 to |ids|
      invariant |scored| == k
      invariant forall j :: 0 <= j < k ==> scored[j] == Scored(ids[j], Score(g.edges, rows, ids[j]))
    {
      var id := ids[k];
      var preds := Placed(Listed(predOf, id), rows);
      var score := if preds == [] then -1.0 else RowSum(preds, rows) as real / |preds| as real;
      scored := scored + [Scored(id, score)];
    }
  }

  /** Each id mapped to its place in the order; a later place overrides an earlier one. */
  function Assigned(order: seq<Scored>, rows: map<string, nat>): map<string, nat> {
    if order == [] then rows
    else Assigned(order[..|order| - 1], rows)[order[|order| - 1].id := |order| - 1]
  }

  method AssignRows(order: seq<Scored>, rows0: map<string, nat>) returns (rows: map<string, nat>)
    ensures rows == Assigned(order, rows0)
  {
    rows := rows0;
    for i := 0 to |order|
      invariant rows == Assigned(order[..i], rows0)
    {
      rows := rows[order[i].id := i];
      assert order[..i + 1][..i] == order[..i];
    }
    assert order[..|order|] == order;
  }

  /** An id that occurs once gets the place it occurs at. */
  lemma {:induction false} AssignedAt(order: seq<Scored>, rows: map<string, nat>, j: nat)
    requires j < |order| && forall m :: j < m < |order| ==> order[m].id != order[j].id
    ensures order[j].id in Assigned(order, rows) && Assigned(order, rows)[order[j].id] == j
    decreases |order|
  {
    if j < |order| - 1 {
      assert order[..|order| - 1][j] == order[j];
      AssignedAt(order[..|order| - 1], rows, j);
    }
  }

  lemma {:induction false} AssignedOther(order: seq<Scored>, rows: map<string, nat>, id: string)
    requires forall j :: 0 <= j < |order| ==> order[j].id != id
    ensures id in Assigned(order, rows) <==> id in rows
    ensures id in rows ==> Assigned(order, rows)[id] == rows[id]
    decreases |order|
  {
    if order != [] { AssignedOther(order[..|order| - 1], rows, id); }
  }

  /** rows extends rows0 by a ranking of ids. */
  ghost predicate Ranks(g: Graph, ids: seq<string>, rows0: map<string, nat>, rows: map<string, nat>,
                        collate: (string, string) -> bool) {
    (forall id :: id in rows <==> id in rows0 || id in ids)
    && (forall id :: id in rows0 ==> rows[id] == rows0[id])
    && (forall a :: a in ids ==> rows[a] < |ids|)
    && (forall a, b :: a in ids && b in ids && a != b ==>
          rows[a] != rows[b]
          && (rows[a] < rows[b] ==>
                Precedes(collate, Scored(a, Score(g.edges, rows0, a)), Scored(b, Score(g.edges, rows0, b)))))
  }

  /** Orders one column and hands out its rows. */
  method RankColumn(g: Graph, predOf: map<string, seq<string>>, ids: seq<string>, rows0: map<string, nat>,
                    collate: (string, string) -> bool) returns (rows: map<string, nat>)
    requires forall id :: Preds(g.edges, id) == Listed(predOf, id)
    requires Sorting.TotalPreorder(collate)
    ensures (forall id :: id in ids ==> id !in rows0) ==> Ranks(g, ids, rows0, rows, collate)
  {
    var scored := ScoreColumn(g, predOf, ids, rows0);
    var order := Sorting.Sort(scored, ByScore(collate));
    rows := AssignRows(order, rows0);
    if forall id :: id in ids ==> id !in rows0 {
      RowsFollowOrder(g, ids, scored, order, rows0, rows, collate);
    }
  }

  /** The last place of an id in the order. */
  lemma {:induction false} LastPlace(order: seq<Scored>, id: string) returns (j: nat)
    requires exists i :: 0 <= i < |order| && order[i].id == id
    ensures j < |order| && order[j].id == id && forall m :: j < m < |order| ==> order[m].id != id
  {
    j := |order| - 1;
    if order[j].id != id { j := LastPlace(order[..j], id); }
  }

  lemma {:induction false} RowsFollowOrder(g: Graph, ids: seq<string>, scored: seq<Scored>, order: seq<Scored>,
                                           rows0: map<string, nat>, rows: map<string, nat>,
                                           collate: (string, string) -> bool)
    requires Sorting.TotalPreorder(collate) && forall id :: id in ids ==> id !in rows0
    requires |scored| == |ids|
    requires forall j :: 0 <= j < |ids| ==> scored[j] == Scored(ids[j], Score(g.edges, rows0, ids[j]))
    requires order == Sorting.Sort(scored, ByScore(collate))
    requires rows == Assigned(order, rows0)
    ensures Ranks(g, ids, rows0, rows, collate)
  {
    ByScoreIsPreorder(collate);
    Sorting.SortSorts(scored, ByScore(collate));
    OrderIsRearranged(ids, scored, order, g, rows0, collate);
    forall a | a in ids
      ensures a in rows && rows[a] < |ids| && order[rows[a]] == Scored(a, Score(g.edges, rows0, a))
    {
      var j := LastPlace(order, a);
      AssignedAt(order, rows0, j);
    }
    forall id | id !in ids
      ensures id in rows <==> id in rows0
      ensures id in rows0 ==> rows[id] == rows0[id]
    {
      AssignedOther(order, rows0, id);
    }
  }

  /** The ordered column has the same ids, with their scores. */
  lemma {:induction false} OrderIsRearranged(ids: seq<string>, scored: seq<Scored>, order: seq<Scored>, g: Graph,
                                             rows0: map<string, nat>, collate: (string, string) -> bool)
    requires |scored| == |ids|
    requires forall j :: 0 <= j < |ids| ==> scored[j] == Scored(ids[j], Score(g.edges, rows0, ids[j]))
    requires order == Sorting.Sort(scored, ByScore(collate))
    ensures |order| == |ids|
    ensures forall j :: 0 <= j < |order| ==> order[j].id in ids && order[j].score == Score(g.edges, rows0, order[j].id)
    ensures forall a :: a in ids ==> exists j :: 0 <= j < |order| && order[j].id == a
  {
    forall j | 0 <= j < |order| ensures order[j].id in ids && order[j].score == Score(g.edges, rows0, order[j].id) {
      assert order[j] in multiset(order);
      assert order[j] in scored;
    }
    forall a | a in ids ensures exists j :: 0 <= j < |order| && order[j].id == a {
      var m :| 0 <= m < |ids| && ids[m] == a;
      assert scored[m] in multiset(scored);
      assert scored[m] in order;
    }
  }

  /** All columns left of l are ranked, and only those have rows. */
  ghost predicate RankedBelow(g: Graph, layer: map<string, nat>, rows: map<string, nat>,
                              collate: (string, string) -> bool, l: nat) {
    (forall id :: id in rows <==> id in g.nodes && id in layer && layer[id] < l)
    && forall m: nat :: m < l ==> ColumnRanked(g, layer, rows, collate, m)
  }

  /** Rows handed out further right do not disturb a ranked column. */
  lemma {:induction false} KeepsRank(g: Graph, layer: map<string, nat>, rows: map<string, nat>, rows': map<string, nat>,
                                     collate: (string, string) -> bool, m: nat)
    requires ColumnRanked(g, layer, rows, collate, m)
    requires forall id :: id in rows ==> id in rows' && rows'[id] == rows[id]
    requires forall id :: id in rows' && id !in rows && id in layer ==> m < layer[id]
    ensures ColumnRanked(g, layer, rows', collate, m)
  {
    assert LeftOf(rows', layer, m) == LeftOf(rows, layer, m);
  }

  lemma {:induction false} RankNext(g: Graph, layer: map<string, nat>, rows: map<string, nat>, rows': map<string, nat>,
                                    collate: (string, string) -> bool, l: nat)
    requires RankedBelow(g, layer, rows, collate, l)
    requires Ranks(g, Column(g.nodes, layer, l), rows, rows', collate)
    ensures RankedBelow(g, layer, rows', collate, l + 1)
  {
    hide Column, Precedes, Score;
    forall id ensures id in Column(g.nodes, layer, l) <==> id in g.nodes && id in layer && layer[id] == l {
      InColumn(g.nodes, layer, l, id);
    }
    assert LeftOf(rows', layer, l) == rows;
    assert ColumnRanked(g, layer, rows', collate, l);
    hide ColumnRanked;
    forall m: nat | m < l ensures ColumnRanked(g, layer, rows', collate, m) {
      KeepsRank(g, layer, rows, rows', collate, m);
    }
  }

  /** Columns without nodes are ranked as they stand. */
  lemma {:induction false} RankSkip(g: Graph, layer: map<string, nat>, rows: map<string, nat>,
                                    collate: (string, string) -> bool, l: nat, l': nat)
    requires RankedBelow(g, layer, rows, collate, l) && l <= l'
    requires forall id :: id in g.nodes && id in layer ==> layer[id] < l || l' <= layer[id]
    ensures RankedBelow(g, layer, rows, collate, l')
  {
    forall m: nat | l <= m < l' ensures ColumnRanked(g, layer, rows, collate, m) {
      forall id { InColumn(g.nodes, layer, m, id); }
    }
  }

  ghost predicate AllRanked(g: Graph, layer: map<string, nat>, rows: map<string, nat>,
                            collate: (string, string) -> bool) {
    (forall id :: id in rows <==> id in g.nodes)
    && forall l: nat :: ColumnRanked(g, layer, rows, collate, l)
  }

  function ByNumber(): (nat, nat) -> bool { (a: nat, b: nat) => a <= b }

  /** Ranks one more column. */
  method RankOne(g: Graph, ghost layer: map<string, nat>, predOf: map<string, seq<string>>, ids: seq<string>,
                 rows0: map<string, nat>, collate: (string, string) -> bool, ghost done: nat, ghost l: nat)
    returns (rows: map<string, nat>)
    requires Sorting.TotalPreorder(collate)
    requires forall id :: Preds(g.edges, id) == Listed(predOf, id)
    requires ids == Column(g.nodes, layer, l) && done <= l
    requires forall id :: id in g.nodes && id in layer ==> layer[id] < done || l <= layer[id]
    ensures RankedBelow(g, layer, rows0, collate, done) ==> RankedBelow(g, layer, rows, collate, l + 1)
  {
    rows := RankColumn(g, predOf, ids, rows0, collate);
    if RankedBelow(g, layer, rows0, collate, done) {
      RankSkip(g, layer, rows0, collate, done, l);
      forall id { InColumn(g.nodes, layer, l, id); }
      RankNext(g, layer, rows0, rows, collate, l);
    }
  }

  /** Ranks the columns from left to right. */
  method RankColumns(g: Graph, ghost layer: map<string, nat>, keys: seq<nat>, cols: map<nat, seq<string>>,
                     collate: (string, string) -> bool) returns (rows: map<string, nat>)
    requires Sorting.TotalPreorder(collate)
    requires forall id :: id in g.nodes ==> id in layer && layer[id] in cols
    requires forall l: nat :: Column(g.nodes, layer, l) == Listed(cols, l)
    requires Distinct(keys) && (forall l :: l in keys <==> l in cols)
    ensures AllRanked(g, layer, rows, collate)
  {
    hide Column, RankedBelow, Preds, Sorting.Sort;
    var predOf := BuildPreds(g.edges);
    var sorted := Sorting.Sort(keys, ByNumber());
    KeysAscend(keys);
    rows := map[];
    ghost var done: nat := 0;
    NothingRanked(g, layer, collate);
    for k := 0 to |sorted|
      invariant RankedBelow(g, layer, rows, collate, done)
      invariant k == 0 ==> done == 0
      invariant k > 0 ==> done == sorted[k - 1] + 1
    {
      var l := sorted[k];
      NoneBetween(g, layer, keys, sorted, k, done);
      assert Column(g.nodes, layer, l) == Listed(cols, l);
      rows := RankOne(g, layer, predOf, Listed(cols, l), rows, collate, done, l);
      done := l + 1;
    }
    forall id | id in g.nodes ensures layer[id] < done {
      assert layer[id] in sorted;
    }
    EverythingRanked(g, layer, rows, collate, done);
  }

  lemma {:induction false} NothingRanked(g: Graph, layer: map<string, nat>, collate: (string, string) -> bool)
    ensures RankedBelow(g, layer, map[], collate, 0)
  {
  }

  lemma {:induction false} EverythingRanked(g: Graph, layer: map<string, nat>, rows: map<string, nat>,
                                            collate: (string, string) -> bool, done: nat)
    requires RankedBelow(g, layer, rows, collate, done)
    requires forall id :: id in g.nodes ==> id in layer && layer[id] < done
    ensures AllRanked(g, layer, rows, collate)
  {
    hide ColumnRanked;
    forall l: nat ensures ColumnRanked(g, layer, rows, collate, l) {
      RankSkip(g, layer, rows, collate, done, done + l + 1);
    }
  }

  lemma {:induction false} KeysAscend(keys: seq<nat>)
    requires Distinct(keys)
    ensures Ascending(Sorting.Sort(keys, ByNumber()))
    ensures forall l :: l in keys <==> l in Sorting.Sort(keys, ByNumber())
  {
    var sorted := Sorting.Sort(keys, ByNumber());
    Sorting.SortSorts(keys, ByNumber());
    DistinctSpread(keys, sorted);
    forall i, j | 0 <= i < j < |sorted| ensures sorted[i] < sorted[j] {
      assert ByNumber()(sorted[i], sorted[j]) && sorted[i] != sorted[j];
    }
    forall l ensures l in keys <==> l in sorted { Sorting.SortKeepsElements(keys, ByNumber(), l); }
  }

  lemma {:induction false} NoneBetween(g: Graph, layer: map<string, nat>, keys: seq<nat>, sorted: seq<nat>, k: nat,
                                       done: nat)
    requires Ascending(sorted)
    requires forall id :: id in g.nodes ==> id in layer && layer[id] in sorted
    requires k < |sorted| && (k == 0 ==> done == 0) && (k > 0 ==> done == sorted[k - 1] + 1)
    ensures done <= sorted[k]
    ensures forall id :: id in g.nodes && id in layer ==> layer[id] < done || sorted[k] <= layer[id]
  {
    forall id | id in g.nodes ensures layer[id] < done || sorted[k] <= layer[id] {
      var i :| 0 <= i < |sorted| && sorted[i] == layer[id];
    }
  }

  // ---- the layout ----

  /** The layer a node is drawn in: its distance from the entry, or 0 when nothing leads to it. */
  ghost predicate IsLayer(g: Graph, id: string, l: nat) {
    if Reachable(g, id) then IsDistance(g, l, id) else l == 0
  }

  predicate HasEnd(g: Graph) {
    exists k :: 0 <= k < |g.edges| && g.edges[k].to == END
  }

  /** Column and row of an id, where the end marker takes a square in the middle of its cell. */
  function At(layer: nat, row: nat, inset: bool): Pos {
    Pos(PAD + layer * (NODE_W + COL_GAP) + (if inset then (NODE_W - END_W) / 2 else 0),
        PAD + row * (NODE_H + ROW_GAP) + (if inset then (NODE_H - END_W) / 2 else 0),
        layer, row)
  }

  predicate IsMarker(g: Graph, id: string) {
    id == END && HasEnd(g)
  }

  function RowOf(rows: map<string, nat>, id: string): nat {
    if id in rows then rows[id] else 0
  }

  /** The finished layout. */
  ghost predicate LaidOut(g: Graph, collate: (string, string) -> bool, layer: map<string, nat>, rows: map<string, nat>,
                          pos: map<string, Pos>) {
    (forall id :: id in pos <==> id in g.nodes || IsMarker(g, id))
    && (forall id :: id in g.nodes ==> id in layer && IsLayer(g, id, layer[id]))
    && AllRanked(g, layer, rows, collate)
    && (forall id :: id in g.nodes && !IsMarker(g, id) ==> pos[id] == At(layer[id], RowOf(rows, id), false))
    && (HasEnd(g) ==> exists last: nat :: LastLayer(g, layer, last)
                                          && pos[END] == At(last + 1, |Column(g.nodes, layer, last)|, true))
  }

  /** The rightmost column that holds a node; 0 when there are none. */
  ghost predicate LastLayer(g: Graph, layer: map<string, nat>, last: nat) {
    (forall id :: id in g.nodes ==> id in layer && layer[id] <= last)
    && (g.nodes == [] ==> last == 0)
    && (g.nodes != [] ==> exists id :: id in g.nodes && id in layer && layer[id] == last)
  }

  method PlaceNodes(g: Graph, collate: (string, string) -> bool)
    returns (pos: map<string, Pos>, ghost layer: map<string, nat>, ghost rows: map<string, nat>)
    requires Sorting.TotalPreorder(collate)
    ensures LaidOut(g, collate, layer, rows, pos)
    ensures forall id :: id in g.nodes && !IsMarker(g, id) ==> id in pos && IsLayer(g, id, pos[id].layer)
    ensures END in pos <==> END in g.nodes || HasEnd(g)
  {
    hide AllRanked, IsLayer, Column;
    var layers := BreadthFirst(g);
    var maxLayer := 0;
    layers, maxLayer := FillLayers(g, layers);
    ghost var last := maxLayer;
    var hasEnd := HasEnd(g);
    if hasEnd { maxLayer := maxLayer + 1; }
    var keys, cols := BuildColumns(g.nodes, layers);
    var ranks := RankColumns(g, layers, keys, cols, collate);
    var endRow := if hasEnd then |Listed(cols, maxLayer - 1)| else 0;
    pos := PlaceBoxes(g.nodes, layers, ranks);
    layer, rows := layers, ranks;
    if hasEnd {
      assert Column(g.nodes, layers, last) == Listed(cols, last);
      pos := pos[END := Pos(PAD + maxLayer * (NODE_W + COL_GAP) + (NODE_W - END_W) / 2,
                            PAD + endRow * (NODE_H + ROW_GAP) + (NODE_H - END_W) / 2, maxLayer, endRow)];
      assert LastLayer(g, layer, last) && pos[END] == At(last + 1, |Column(g.nodes, layer, last)|, true);
    }
  }

  method PlaceBoxes(nodes: seq<string>, layer: map<string, nat>, rows: map<string, nat>) returns (pos: map<string, Pos>)
    requires forall id :: id in nodes ==> id in layer
    ensures forall id :: id in pos <==> id in nodes
    ensures forall id :: id in nodes ==> pos[id] == At(layer[id], RowOf(rows, id), false)
  {
    pos := map[];
    for k := 0 to |nodes|
      invariant forall id :: id in pos <==> id in nodes[..k]
      invariant forall id :: id in nodes[..k] ==> pos[id] == At(layer[id], RowOf(rows, id), false)
    {
      var id := nodes[k];
      var row := if id in rows then rows[id] else 0;
      pos := pos[id := Pos(PAD + layer[id] * (NODE_W + COL_GAP), PAD + row * (NODE_H + ROW_GAP), layer[id], row)];
      assert nodes[..k + 1] == nodes[..k] + [id];
    }
    assert nodes[..|nodes|] == nodes;
  }

  /** Nodes the search did not reach go to layer 0; reports the rightmost layer in use. */
  method FillLayers(g: Graph, found: map<string, nat>) returns (layer: map<string, nat>, maxLayer: nat)
    requires forall id :: id in found <==> Reachable(g, id)
    requires forall id :: id in found ==> IsDistance(g, found[id], id)
    ensures forall id :: id in g.nodes ==> id in layer && IsLayer(g, id, layer[id])
    ensures LastLayer(g, layer, maxLayer)
  {
    hide Reachable, IsDistance;
    layer, maxLayer := found, 0;
    for k := 0 to |g.nodes|
      invariant forall id :: id in found ==> id in layer && layer[id] == found[id]
      invariant forall id :: id in layer && id !in found ==> layer[id] == 0
      invariant forall j :: 0 <= j < k ==> g.nodes[j] in layer && layer[g.nodes[j]] <= maxLayer
      invariant k == 0 ==> maxLayer == 0
      invariant k > 0 ==> exists j :: 0 <= j < k && g.nodes[j] in layer && layer[g.nodes[j]] == maxLayer
    {
      var id := g.nodes[k];
      if id !in layer { layer := layer[id := 0]; }
      if layer[id] > maxLayer { maxLayer := layer[id]; }
      if k == 0 { assert layer[g.nodes[0]] == maxLayer; }
    }
    if g.nodes != [] {
      var j :| 0 <= j < |g.nodes| && g.nodes[j] in layer && layer[g.nodes[j]] == maxLayer;
      assert g.nodes[j] in g.nodes;
    }
  }

  // ---- what the layout is good for ----

  datatype Box = Box(x: int, y: int, w: int, h: int)

  function BoxOf(g: Graph, pos: map<string, Pos>, id: string): Box
    requires id in pos
  {
    if IsMarker(g, id) then Box(pos[id].x, pos[id].y, END_W, END_W) else Box(pos[id].x, pos[id].y, NODE_W, NODE_H)
  }

  predicate Apart(a: Box, b: Box) {
    a.x + a.w < b.x || b.x + b.w < a.x || a.y + a.h < b.y || b.y + b.h < a.y
  }

  lemma {:induction false} CellsApart(l: nat, r: nat, l': nat, r': nat, inset: bool, inset': bool)
    requires l != l' || (r != r' && !inset && !inset')
    ensures var a, b := At(l, r, inset), At(l', r', inset');
            Apart(Box(a.x, a.y, if inset then END_W else NODE_W, if inset then END_W else NODE_H),
                  Box(b.x, b.y, if inset' then END_W else NODE_W, if inset' then END_W else NODE_H))
  {
  }

  /** No two boxes of the layout touch. */
  lemma {:induction false} NoOverlap(g: Graph, collate: (string, string) -> bool, layer: map<string, nat>,
                                     rows: map<string, nat>, pos: map<string, Pos>, a: string, b: string)
    requires LaidOut(g, collate, layer, rows, pos)
    requires a in pos && b in pos && a != b
    ensures Apart(BoxOf(g, pos, a), BoxOf(g, pos, b))
  {
    hide IsLayer, LastLayer, Apart, Column;
    if IsMarker(g, a) {
      MarkerPastNodes(g, collate, layer, rows, pos, b);
    } else if IsMarker(g, b) {
      MarkerPastNodes(g, collate, layer, rows, pos, a);
    } else if pos[a].layer == pos[b].layer {
      InColumn(g.nodes, layer, layer[a], a);
      InColumn(g.nodes, layer, layer[a], b);
      assert ColumnRanked(g, layer, rows, collate, layer[a]);
    }
    CellsApart(pos[a].layer, pos[a].row, pos[b].layer, pos[b].row, IsMarker(g, a), IsMarker(g, b));
  }

  /** The end marker stands one column past every node, so alone in its column. */
  lemma {:induction false} MarkerPastNodes(g: Graph, collate: (string, string) -> bool, layer: map<string, nat>,
                                           rows: map<string, nat>, pos: map<string, Pos>, id: string)
    requires LaidOut(g, collate, layer, rows, pos) && HasEnd(g)
    requires id in pos && id != END
    ensures pos[id].layer < pos[END].layer
    ensures g.nodes != [] ==> exists n :: n in g.nodes && n in layer && layer[n] + 1 == pos[END].layer
  {
    var last: nat :| LastLayer(g, layer, last) && pos[END] == At(last + 1, |Column(g.nodes, layer, last)|, true);
  }

  /** The map reads from left to right: columns from PAD on, one node's width and a gap apart, so a node stands further
      right exactly when its layer is greater; within a column rows go down from PAD, one node's height and a gap apart;
      equal rows of different columns are level. */
  lemma {:induction false} LeftToRight(g: Graph, collate: (string, string) -> bool, layer: map<string, nat>,
                                       rows: map<string, nat>, pos: map<string, Pos>, a: string, b: string)
    requires LaidOut(g, collate, layer, rows, pos)
    requires a in g.nodes && b in g.nodes && !IsMarker(g, a) && !IsMarker(g, b)
    ensures pos[a].x < pos[b].x <==> pos[a].layer < pos[b].layer
    ensures pos[a].x == pos[b].x <==> pos[a].layer == pos[b].layer
    ensures pos[a].y < pos[b].y <==> pos[a].row < pos[b].row
    ensures pos[a].y == pos[b].y <==> pos[a].row == pos[b].row
    ensures pos[b].layer == pos[a].layer + 1 ==> pos[b].x == pos[a].x + NODE_W + COL_GAP
    ensures pos[b].row == pos[a].row + 1 ==> pos[b].y == pos[a].y + NODE_H + ROW_GAP
    ensures pos[a].layer == 0 ==> pos[a].x == PAD
    ensures pos[a].row == 0 ==> pos[a].y == PAD
  {
    SameOrder(pos[a].layer, pos[b].layer, NODE_W + COL_GAP);
    SameOrder(pos[a].row, pos[b].row, NODE_H + ROW_GAP);
  }

  lemma {:induction false} SameOrder(m: nat, n: nat, step: nat)
    requires step > 0
    ensures (m * step < n * step <==> m < n) && (m * step == n * step <==> m == n)
  {
    if m < n { assert n * step == m * step + (n - m) * step; }
    if n < m { assert m * step == n * step + (m - n) * step; }
  }

  /** The entry's box is in the leftmost column. */
  lemma {:induction false} EntryIsLeftmost(g: Graph, collate: (string, string) -> bool, layer: map<string, nat>,
                                           rows: map<string, nat>, pos: map<string, Pos>, id: string)
    requires LaidOut(g, collate, layer, rows, pos) && id in pos
    requires g.entry in g.nodes && !IsMarker(g, g.entry)
    ensures pos[g.entry].x == PAD && pos[g.entry].x <= pos[id].x
  {
    hide AllRanked, IsLayer;
    EntryAtZero(g, layer[g.entry]);
    AtLeast(pos[id].layer, NODE_W + COL_GAP);
  }

  lemma {:induction false} EntryAtZero(g: Graph, l: nat)
    ensures IsLayer(g, g.entry, l) ==> l == 0
  {
    assert Reach(g, 0, g.entry);
  }

  lemma {:induction false} AtLeast(n: nat, step: nat)
    ensures n * step >= 0
  {
  }

  /** The end marker stands right of every node's box, in the middle of a cell of its own. */
  lemma {:induction false} EndIsRightmost(g: Graph, collate: (string, string) -> bool, layer: map<string, nat>,
                                          rows: map<string, nat>, pos: map<string, Pos>, id: string)
    requires LaidOut(g, collate, layer, rows, pos) && HasEnd(g) && id in pos && id != END
    ensures pos[id].x + NODE_W + COL_GAP < pos[END].x
    ensures pos[END].layer == pos[id].layer + 1 && pos[END].row == pos[id].row ==>
              2 * pos[END].x + END_W == 2 * (pos[id].x + NODE_W + COL_GAP) + NODE_W
              && 2 * pos[END].y + END_W == 2 * pos[id].y + NODE_H
  {
    hide AllRanked, IsLayer, Column;
    MarkerPastNodes(g, collate, layer, rows, pos, id);
    SameOrder(pos[id].layer + 1, pos[END].layer, NODE_W + COL_GAP);
  }

  /** And one row below the last node of the rightmost column. */
  lemma {:induction false} EndIsBelow(g: Graph, collate: (string, string) -> bool, layer: map<string, nat>,
                                      rows: map<string, nat>, pos: map<string, Pos>, id: string)
    requires LaidOut(g, collate, layer, rows, pos) && HasEnd(g)
    requires id in g.nodes && id != END && pos[id].layer + 1 == pos[END].layer
    ensures pos[id].row < pos[END].row
    ensures Distinct(g.nodes) ==>
              exists low :: low in g.nodes && low in layer && low in rows && layer[low] + 1 == pos[END].layer
                            && rows[low] + 1 == pos[END].row
  {
    hide IsLayer;
    var last: nat :| LastLayer(g, layer, last) && pos[END] == At(last + 1, |Column(g.nodes, layer, last)|, true);
    hide LastLayer, Column;
    InColumn(g.nodes, layer, last, id);
    assert ColumnRanked(g, layer, rows, collate, last);
    if Distinct(g.nodes) {
      RowsFillColumn(g, collate, layer, rows, pos, last, |Column(g.nodes, layer, last)| - 1);
      var low :| low in Column(g.nodes, layer, last) && low in rows && rows[low] == |Column(g.nodes, layer, last)| - 1;
      InColumn(g.nodes, layer, last, low);
    }
  }

  // ---- rows by barycenter ----

  /** An edge into id from a node in a column further left. */
  predicate PullsOn(e: Edge, g: Graph, layer: map<string, nat>, id: string) {
    e.to == id && e.to != END && e.from in g.nodes && e.from in layer && id in layer && layer[e.from] < layer[id]
  }

  datatype Pull = Pull(edges: nat, rowSum: nat)

  /** How many edges lead into id from columns further left, and the sum of the rows they come from. */
  ghost function Pulls(edges: seq<Edge>, g: Graph, layer: map<string, nat>, rows: map<string, nat>, id: string): Pull {
    if edges == [] then Pull(0, 0)
    else
      var e, before := edges[|edges| - 1], Pulls(edges[..|edges| - 1], g, layer, rows, id);
      if PullsOn(e, g, layer, id) then Pull(before.edges + 1, before.rowSum + RowOf(rows, e.from)) else before
  }

  lemma {:induction false} PullsAreScore(edges: seq<Edge>, g: Graph, layer: map<string, nat>, rows: map<string, nat>,
                                         id: string)
    requires id in layer && (forall x :: x in rows <==> x in g.nodes) && forall x :: x in g.nodes ==> x in layer
    ensures var placed := Placed(Preds(edges, id), LeftOf(rows, layer, layer[id]));
            Pulls(edges, g, layer, rows, id) == Pull(|placed|, RowSum(placed, LeftOf(rows, layer, layer[id])))
  {
    if edges != [] {
      var front, e, left := edges[..|edges| - 1], edges[|edges| - 1], LeftOf(rows, layer, layer[id]);
      PullsAreScore(front, g, layer, rows, id);
      assert PullsOn(e, g, layer, id) <==> e.to == id && id != END && e.from in left;
      if e.to == id && id != END {
        assert Preds(edges, id) == Preds(front, id) + [e.from];
        PlacedNext(Preds(front, id), e.from, left);
      } else {
        assert Preds(edges, id) == Preds(front, id);
      }
    }
  }

  lemma {:induction false} PlacedNext(preds: seq<string>, id: string, rows: map<string, nat>)
    ensures Placed(preds + [id], rows) == Placed(preds, rows) + if id in rows then [id] else []
    ensures RowSum(Placed(preds + [id], rows), rows)
            == RowSum(Placed(preds, rows), rows) + if id in rows then rows[id] else 0
  {
    assert (preds + [id])[..|preds|] == preds;
    var placed := Placed(preds, rows);
    if id in rows { assert (placed + [id])[..|placed|] == placed; } else { assert placed + [] == placed; }
  }

  lemma {:induction false} MeansCompare(sa: nat, ca: nat, sb: nat, cb: nat)
    requires ca > 0 && cb > 0
    ensures sa as real / ca as real < sb as real / cb as real <==> sa * cb < sb * ca
    ensures sa as real / ca as real == sb as real / cb as real <==> sa * cb == sb * ca
  {
    var x, y := sa as real / ca as real, sb as real / cb as real;
    var p, q := ca as real, cb as real;
    assert x * p == sa as real && y * q == sb as real;
    assert (sa * cb) as real == x * (p * q) && (sb * ca) as real == y * (p * q);
    assert p * q > 0.0;
    Scaled(x, y, p * q);
  }

  lemma {:induction false} ScoreIsMean(edges: seq<Edge>, rows: map<string, nat>, id: string, p: Pull)
    requires var placed := Placed(Preds(edges, id), rows); p == Pull(|placed|, RowSum(placed, rows))
    ensures p.edges == 0 ==> Score(edges, rows, id) == -1.0
    ensures p.edges > 0 ==>
              Score(edges, rows, id) == p.rowSum as real / p.edges as real && Score(edges, rows, id) >= 0.0
  {
    hide Placed, Preds, RowSum;
  }

  lemma {:induction false} Scaled(x: real, y: real, z: real)
    requires z > 0.0
    ensures (x < y <==> x * z < y * z) && (x == y <==> x * z == y * z)
  {
    if x < y { assert (y - x) * z > 0.0; }
    if y < x { assert (x - y) * z > 0.0; }
  }

  /** Within a column, nodes that nothing pulls on come first, by name; then the others by the mean row they are pulled
      from, ties by name. */
  lemma {:induction false} RowsByPull(g: Graph, collate: (string, string) -> bool, layer: map<string, nat>,
                                      rows: map<string, nat>, pos: map<string, Pos>, a: string, b: string)
    requires LaidOut(g, collate, layer, rows, pos)
    requires a in g.nodes && b in g.nodes && layer[a] == layer[b] && rows[a] < rows[b]
    ensures var p, q := Pulls(g.edges, g, layer, rows, a), Pulls(g.edges, g, layer, rows, b);
            if p.edges == 0 then q.edges == 0 ==> collate(a, b)
            else q.edges > 0 && (p.rowSum * q.edges < q.rowSum * p.edges
                                 || (p.rowSum * q.edges == q.rowSum * p.edges && collate(a, b)))
  {
    hide Placed, Preds, RowSum, Pulls, Column, IsLayer, LeftOf, Score;
    var l := layer[a];
    InColumn(g.nodes, layer, l, a);
    InColumn(g.nodes, layer, l, b);
    assert ColumnRanked(g, layer, rows, collate, l);
    PullsAreScore(g.edges, g, layer, rows, a);
    PullsAreScore(g.edges, g, layer, rows, b);
    var left := LeftOf(rows, layer, l);
    var p, q := Pulls(g.edges, g, layer, rows, a), Pulls(g.edges, g, layer, rows, b);
    ScoreIsMean(g.edges, left, a, p);
    ScoreIsMean(g.edges, left, b, q);
    if p.edges > 0 && q.edges > 0 { MeansCompare(p.rowSum, p.edges, q.rowSum, q.edges); }
  }

  /** With distinct node ids, the rows of a column are 0, 1, 2, ... without a gap. */
  lemma {:induction false} RowsFillColumn(g: Graph, collate: (string, string) -> bool, layer: map<string, nat>,
                                          rows: map<string, nat>, pos: map<string, Pos>, l: nat, r: nat)
    requires LaidOut(g, collate, layer, rows, pos) && Distinct(g.nodes)
    requires r < |Column(g.nodes, layer, l)|
    ensures exists id :: id in Column(g.nodes, layer, l) && id in rows && rows[id] == r
  {
    ColumnDistinct(g.nodes, layer, l);
    assert ColumnRanked(g, layer, rows, collate, l);
    NoRowUnused(Column(g.nodes, layer, l), rows, r);
  }

  ghost function UpTo(n: nat): (s: set<nat>)
    ensures |s| == n && forall k: nat :: k in s <==> k < n
  {
    if n == 0 then {} else UpTo(n - 1) + {n - 1}
  }

  lemma {:induction false} NoRowUnused(ids: seq<string>, rows: map<string, nat>, r: nat)
    requires Distinct(ids) && r < |ids|
    requires forall a :: a in ids ==> a in rows && rows[a] < |ids|
    requires forall a, b :: a in ids && b in ids && a != b ==> rows[a] != rows[b]
    ensures exists id :: id in ids && id in rows && rows[id] == r
  {
    if forall id :: id in ids ==> rows[id] != r {
      var taken := seq(|ids|, j requires 0 <= j < |ids| => rows[ids[j]]);
      var free := UpTo(|ids|) - {r};
      DistinctFits(taken, free);
    }
  }

  datatype EdgeKind = Back | Side | Forward

  /** How an edge is drawn; an id the layout does not know counts as layer 0. */
  function Kind(pos: map<string, Pos>, e: Edge): EdgeKind {
    var from := if e.from in pos then pos[e.from].layer else 0;
    var to := if e.to in pos then pos[e.to].layer else 0;
    if to < from then Back else if to == from then Side else Forward
  }

  /** An edge between nodes is drawn back exactly when it leads to the left, and sideways exactly when it stays in its
      column. */
  lemma {:induction false} KindIsDirection(g: Graph, collate: (string, string) -> bool, layer: map<string, nat>,
                                           rows: map<string, nat>, pos: map<string, Pos>, e: Edge)
    requires LaidOut(g, collate, layer, rows, pos) && e.from in pos && e.to in pos
    ensures Kind(pos, e) == Back <==> pos[e.to].x < pos[e.from].x
    ensures Kind(pos, e) == Side <==> pos[e.to].x == pos[e.from].x
    ensures Kind(pos, e) == Forward <==> pos[e.from].x < pos[e.to].x
  {
    if e.from != e.to && IsMarker(g, e.from) {
      MarkerPastNodes(g, collate, layer, rows, pos, e.to);
      EndIsRightmost(g, collate, layer, rows, pos, e.to);
    } else if e.from != e.to && IsMarker(g, e.to) {
      MarkerPastNodes(g, collate, layer, rows, pos, e.from);
      EndIsRightmost(g, collate, layer, rows, pos, e.from);
    } else if e.from != e.to {
      LeftToRight(g, collate, layer, rows, pos, e.from, e.to);
    }
  }

  lemma {:induction false} StepReaches(g: Graph, e: Edge, n: nat)
    requires e in g.edges && e.to != END && Reach(g, n, e.from)
    ensures Reach(g, n + 1, e.to)
  {
  }

  /** An edge out of a reachable node goes at most one column right, so it is drawn forward exactly when it goes
      one column right. An edge between nodes skips a column exactly when nothing leads to its source and its
      target is at distance two or more. */
  lemma {:induction false} ForwardIsOneColumn(g: Graph, collate: (string, string) -> bool, layer: map<string, nat>,
                                              rows: map<string, nat>, pos: map<string, Pos>, e: Edge)
    requires LaidOut(g, collate, layer, rows, pos)
    requires e in g.edges && e.from in g.nodes && e.to in g.nodes && e.from != END && e.to != END
    ensures Reachable(g, e.from) ==> pos[e.to].layer <= pos[e.from].layer + 1
    ensures Reachable(g, e.from) ==> (Kind(pos, e) == Forward <==> pos[e.to].layer == pos[e.from].layer + 1)
    ensures pos[e.to].layer > pos[e.from].layer + 1
            <==> !Reachable(g, e.from) && exists n: nat :: n >= 2 && IsDistance(g, n, e.to)
  {
    if Reachable(g, e.from) {
      StepReaches(g, e, layer[e.from]);
      assert Reachable(g, e.to);
    } else if pos[e.to].layer >= 2 {
      assert IsDistance(g, layer[e.to], e.to);
    }
    forall n: nat, m: nat | IsDistance(g, n, e.to) && IsDistance(g, m, e.to) ensures n == m {
    }
  }

  /** Such an edge exists: a node nothing leads to, pointing past the entry's own column. However the graph is laid
      out, the edge runs from column 0 to column 2. */
  lemma {:induction false} AnEdgeCanSkipAColumn(collate: (string, string) -> bool, layer: map<string, nat>,
                                                rows: map<string, nat>, pos: map<string, Pos>)
    requires LaidOut(SKIPPING, collate, layer, rows, pos)
    ensures Edge("u", "c") in SKIPPING.edges && pos["u"].layer == 0 && pos["c"].layer == 2
  {
    var ab, bc, uc := SKIPPING.edges[0], SKIPPING.edges[1], SKIPPING.edges[2];
    forall n: nat ensures !Reach(SKIPPING, n, "u") {
    }
    assert Reach(SKIPPING, 0, "a");
    assert ab in SKIPPING.edges && Reach(SKIPPING, 1, "b");
    assert bc in SKIPPING.edges && Reach(SKIPPING, 2, "c");
    assert !Reach(SKIPPING, 0, "b") && !Reach(SKIPPING, 0, "u");
    assert !Reach(SKIPPING, 1, "c");
    assert IsDistance(SKIPPING, 2, "c");
    assert "u" in SKIPPING.nodes && "c" in SKIPPING.nodes && !IsMarker(SKIPPING, "u") && !IsMarker(SKIPPING, "c");
    assert IsLayer(SKIPPING, "c", layer["c"]);
  }

  const SKIPPING: Graph := Graph("a", ["a", "b", "c", "u"], [Edge("a", "b"), Edge("b", "c"), Edge("u", "c")])
}
