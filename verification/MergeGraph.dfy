/** knowledge-graph.ts, mergeGraph: a bounded merge of two graphs over insertion-ordered maps. */
module MergeGraph {
  import opened Basics

  /** Anything kept by its id: nodes and edges. */
  datatype Item<V> = Item(id: string, body: V)

  datatype NodeBody = NodeBody(name: string, knowledgeId: string, attributes: seq<string>)
  datatype EdgeBody = EdgeBody(source: string, target: string, kind: string)
  type Node = Item<NodeBody>
  type Edge = Item<EdgeBody>

  datatype State = Ready | Empty | Disabled
  datatype Graph = Graph(nodes: seq<Node>, edges: seq<Edge>, truncated: bool, state: State)

  const MAX_NODES: nat := 240
  const MAX_EDGES: nat := 480

  // ---- Insertion-ordered maps ----

  /** Setting a key keeps its place, or puts it last. */
  function Put<V>(m: seq<Item<V>>, x: Item<V>): seq<Item<V>> {
    if m == [] then [x]
    else if m[0].id == x.id then [x] + m[1..]
    else [m[0]] + Put(m[1..], x)
  }

  function Collect<V>(list: seq<Item<V>>): seq<Item<V>> {
    if list == [] then [] else Put(Collect(list[..|list| - 1]), list[|list| - 1])
  }

  function Keep(edges: seq<Edge>, ids: set<string>): seq<Edge> {
    if edges == [] then []
    else (if edges[0].body.source in ids && edges[0].body.target in ids then [edges[0]] else []) + Keep(edges[1..], ids)
  }

  function Ids<V>(list: seq<Item<V>>): set<string> {
    set i | 0 <= i < |list| :: list[i].id
  }

  function First<T>(list: seq<T>, n: nat): seq<T> {
    if |list| <= n then list else list[..n]
  }

  function Merge(current: Graph, next: Graph): Graph {
    var all := Collect(current.nodes + next.nodes);
    var nodes := First(all, MAX_NODES);
    var edges := Keep(Collect(current.edges + next.edges), Ids(nodes));
    Graph(nodes, First(edges, MAX_EDGES),
          current.truncated || next.truncated || |all| > MAX_NODES || |edges| > MAX_EDGES,
          if nodes != [] then Ready else next.state)
  }

  // ---- What a map holds, independently of how it is built ----

  predicate Distinct<V>(list: seq<Item<V>>) {
    forall i, j :: 0 <= i < j < |list| ==> list[i].id != list[j].id
  }

  /** The last item with an id. */
  function Last<V>(list: seq<Item<V>>, id: string): (r: Option<Item<V>>)
    ensures r.Some? ==> r.value in list && r.value.id == id
    ensures r.None? <==> id !in Ids(list)
  {
    if list == [] then None
    else
      var n := |list| - 1;
      assert Ids(list) == Ids(list[..n]) + {list[n].id};
      if list[n].id == id then Some(list[n]) else Last(list[..n], id)
  }

  lemma {:induction false} LastOfAppend<V>(a: seq<Item<V>>, b: seq<Item<V>>, id: string)
    ensures Last(a + b, id) == if Last(b, id).Some? then Last(b, id) else Last(a, id)
  {
    if b == [] {
      assert a + b == a;
    } else {
      assert (a + b)[..|a + b| - 1] == a + b[..|b| - 1];
      LastOfAppend(a, b[..|b| - 1], id);
    }
  }

  lemma LastOfDistinct<V>(m: seq<Item<V>>, i: nat)
    requires Distinct(m) && i < |m|
    ensures Last(m, m[i].id) == Some(m[i])
  {
    assert m[i].id in Ids(m);
    var k :| 0 <= k < |m| && m[k] == Last(m, m[i].id).value;
  }

  lemma {:induction false} PutIs<V>(m: seq<Item<V>>, x: Item<V>)
    requires Distinct(m)
    ensures Distinct(Put(m, x)) && |m| <= |Put(m, x)| <= |m| + 1
    ensures forall i :: 0 <= i < |m| ==> Put(m, x)[i] == if m[i].id == x.id then x else m[i]
    ensures |Put(m, x)| > |m| <==> x.id !in Ids(m)
    ensures |Put(m, x)| > |m| ==> Put(m, x)[|m|] == x
  {
    if m != [] {
      assert Ids(m) == {m[0].id} + Ids(m[1..]);
      if m[0].id == x.id {
        assert m[0].id in Ids(m);
      } else {
        PutIs(m[1..], x);
        PutSecond(m, x, Put(m[1..], x));
      }
    }
  }

  lemma PutSecond<V>(m: seq<Item<V>>, x: Item<V>, rest: seq<Item<V>>)
    requires m != [] && Distinct(m) && m[0].id != x.id && Distinct(rest) && |m| - 1 <= |rest| <= |m|
    requires forall i :: 0 <= i < |m| - 1 ==> rest[i] == if m[i + 1].id == x.id then x else m[i + 1]
    requires |rest| == |m| ==> rest[|m| - 1] == x
    ensures Distinct([m[0]] + rest)
    ensures forall i :: 0 <= i < |m| ==> ([m[0]] + rest)[i] == if m[i].id == x.id then x else m[i]
  {
    var p := [m[0]] + rest;
    forall i | 0 <= i < |m|
      ensures p[i] == if m[i].id == x.id then x else m[i]
    {
      if i > 0 { assert p[i] == rest[i - 1] && m[(i - 1) + 1] == m[i]; }
    }
    forall j | 0 < j < |p|
      ensures p[j].id != m[0].id
    {
      assert p[j] == rest[j - 1];
    }
    forall i, j | 0 < i < j < |p|
      ensures p[i].id != p[j].id
    {
      assert p[i] == rest[i - 1] && p[j] == rest[j - 1];
    }
  }

  /** Collecting keeps the ids and their last items, each once. */
  lemma {:induction false} CollectIs<V>(list: seq<Item<V>>)
    ensures Distinct(Collect(list)) && Ids(Collect(list)) == Ids(list)
    ensures forall i :: 0 <= i < |Collect(list)| ==> Last(list, Collect(list)[i].id) == Some(Collect(list)[i])
    decreases |list|
  {
    if list != [] {
      var front, x := list[..|list| - 1], list[|list| - 1];
      var m := Collect(front);
      CollectIs(front);
      IdsAppend(front, x);
      assert list == front + [x];
      PutKeeps(list, m);
    }
  }

  lemma IdsAppend<V>(list: seq<Item<V>>, x: Item<V>)
    ensures Ids(list + [x]) == Ids(list) + {x.id}
  {
    var all := list + [x];
    assert all[|list|] == x && forall i :: 0 <= i < |list| ==> all[i] == list[i];
  }

  lemma PutKeeps<V>(list: seq<Item<V>>, m: seq<Item<V>>)
    requires list != [] && Distinct(m)
    requires forall i :: 0 <= i < |m| ==> Last(list[..|list| - 1], m[i].id) == Some(m[i])
    ensures var p := Put(m, list[|list| - 1]);
            && Distinct(p) && Ids(p) == Ids(m) + {list[|list| - 1].id}
            && forall i :: 0 <= i < |p| ==> Last(list, p[i].id) == Some(p[i])
  {
    PutIs(m, list[|list| - 1]);
    PutIds(m, list[|list| - 1]);
    PutLast(list, m);
  }

  lemma PutLast<V>(list: seq<Item<V>>, m: seq<Item<V>>)
    requires list != [] && Distinct(m)
    requires forall i :: 0 <= i < |m| ==> Last(list[..|list| - 1], m[i].id) == Some(m[i])
    ensures var p := Put(m, list[|list| - 1]);
            forall i :: 0 <= i < |p| ==> Last(list, p[i].id) == Some(p[i])
  {
    var x := list[|list| - 1];
    PutIs(m, x);
    var p := Put(m, x);
    forall i | 0 <= i < |p|
      ensures Last(list, p[i].id) == Some(p[i])
    {
      if i < |m| { assert p[i] == if m[i].id == x.id then x else m[i]; }
    }
  }

  lemma PutIds<V>(m: seq<Item<V>>, x: Item<V>)
    requires Distinct(m)
    ensures Ids(Put(m, x)) == Ids(m) + {x.id}
  {
    PutIs(m, x);
    var p := Put(m, x);
    forall id | id in Ids(m)
      ensures id in Ids(p)
    {
      var i :| 0 <= i < |m| && m[i].id == id;
      assert p[i].id == id;
    }
    if x.id in Ids(m) {
      var i :| 0 <= i < |m| && m[i].id == x.id;
      assert p[i].id == x.id;
    } else {
      assert p[|m|].id == x.id;
    }
  }

  /** What comes later does not move what came earlier. */
  lemma {:induction false} CollectPrefix<V>(a: seq<Item<V>>, b: seq<Item<V>>)
    ensures |Collect(a)| <= |Collect(a + b)|
    ensures forall i :: 0 <= i < |Collect(a)| ==> Collect(a + b)[i].id == Collect(a)[i].id
    decreases |b|
  {
    if b == [] {
      assert a + b == a;
    } else {
      var front := b[..|b| - 1];
      assert (a + b)[..|a + b| - 1] == a + front;
      CollectPrefix(a, front);
      CollectIs(a + front);
      PutIs(Collect(a + front), b[|b| - 1]);
    }
  }

  lemma {:induction false} CollectDistinct<V>(m: seq<Item<V>>)
    requires Distinct(m)
    ensures Collect(m) == m
    decreases |m|
  {
    if m != [] {
      var front, x := m[..|m| - 1], m[|m| - 1];
      CollectDistinct(front);
      PutIs(front, x);
      assert x.id !in Ids(front);
      assert Put(front, x) == front + [x];
    }
  }

  /** The items at or after `|a|` have ids that only `b` has. */
  lemma CollectTail<V>(a: seq<Item<V>>, b: seq<Item<V>>, i: nat)
    requires Distinct(a) && |a| <= i < |Collect(a + b)|
    ensures var x := Collect(a + b)[i]; x.id !in Ids(a) && Last(b, x.id) == Some(x)
  {
    var c := Collect(a + b);
    CollectIs(a + b);
    CollectPrefix(a, b);
    CollectDistinct(a);
    forall k | 0 <= k < |a|
      ensures a[k].id != c[i].id
    {
      assert c[k].id == a[k].id;
    }
    LastOfAppend(a, b, c[i].id);
  }

  // ---- Filtering ----

  predicate Joins(e: Edge, ids: set<string>) {
    e.body.source in ids && e.body.target in ids
  }

  lemma {:induction false} KeepIs(edges: seq<Edge>, ids: set<string>)
    ensures forall e :: e in Keep(edges, ids) <==> e in edges && Joins(e, ids)
    ensures |Keep(edges, ids)| <= |edges|
  {
    if edges != [] { KeepIs(edges[1..], ids); }
  }

  lemma {:induction false} KeepDistinct(edges: seq<Edge>, ids: set<string>)
    requires Distinct(edges)
    ensures Distinct(Keep(edges, ids))
  {
    if edges != [] {
      KeepDistinct(edges[1..], ids);
      KeepIs(edges[1..], ids);
      assert forall e :: e in edges[1..] ==> e.id != edges[0].id;
      var rest := Keep(edges[1..], ids);
      forall i | 0 <= i < |rest|
        ensures rest[i].id != edges[0].id
      {
        assert rest[i] in edges[1..];
      }
    }
  }

  lemma {:induction false} KeepAppend(a: seq<Edge>, b: seq<Edge>, ids: set<string>)
    ensures Keep(a + b, ids) == Keep(a, ids) + Keep(b, ids)
  {
    if a == [] {
      assert a + b == b;
    } else {
      assert (a + b)[1..] == a[1..] + b;
      KeepAppend(a[1..], b, ids);
    }
  }

  lemma {:induction false} KeepAll(edges: seq<Edge>, ids: set<string>)
    requires forall e :: e in edges ==> Joins(e, ids)
    ensures Keep(edges, ids) == edges
  {
    if edges != [] {
      KeepAll(edges[1..], ids);
      assert edges[0] in edges && edges == [edges[0]] + edges[1..];
    }
  }

  lemma {:induction false} KeepNone(edges: seq<Edge>, ids: set<string>)
    requires forall e :: e in edges ==> !Joins(e, ids)
    ensures Keep(edges, ids) == []
  {
    if edges != [] {
      assert edges[0] in edges;
      KeepNone(edges[1..], ids);
    }
  }

  // ---- The merge is bounded and closed ----

  ghost predicate WellFormed(g: Graph) {
    && |g.nodes| <= MAX_NODES && |g.edges| <= MAX_EDGES && Distinct(g.nodes) && Distinct(g.edges)
    && forall e :: e in g.edges ==> Joins(e, Ids(g.nodes))
  }

  /** Whatever is merged, the result is bounded, without repeated ids, and every edge has both its nodes. */
  lemma MergeWellFormed(g: Graph, h: Graph)
    ensures WellFormed(Merge(g, h))
  {
    CollectIs(g.nodes + h.nodes);
    var ids := Ids(Merge(g, h).nodes);
    var c := Collect(g.edges + h.edges);
    CollectIs(g.edges + h.edges);
    KeepDistinct(c, ids);
    KeepIs(c, ids);
  }

  /** Every node of a bounded current graph without repeated ids stays, in its place. */
  lemma NodesStay(g: Graph, h: Graph)
    requires |g.nodes| <= MAX_NODES && Distinct(g.nodes)
    ensures |g.nodes| <= |Merge(g, h).nodes|
    ensures forall i :: 0 <= i < |g.nodes| ==> Merge(g, h).nodes[i].id == g.nodes[i].id
  {
    CollectDistinct(g.nodes);
    CollectPrefix(g.nodes, h.nodes);
  }

  /** The nodes are the last ones given for their ids; without truncation none is missing. */
  lemma NodesExactly(g: Graph, h: Graph)
    ensures forall n :: n in Merge(g, h).nodes ==> Last(g.nodes + h.nodes, n.id) == Some(n)
    ensures !Merge(g, h).truncated ==> Ids(Merge(g, h).nodes) == Ids(g.nodes + h.nodes)
  {
    CollectIs(g.nodes + h.nodes);
  }

  /** Without truncation the edges are exactly the last ones given for their ids that join two nodes of the result. */
  lemma EdgesExactly(g: Graph, h: Graph, e: Edge)
    ensures var m := Merge(g, h);
            && (e in m.edges ==> Last(g.edges + h.edges, e.id) == Some(e) && Joins(e, Ids(m.nodes)))
            && (!m.truncated && Last(g.edges + h.edges, e.id) == Some(e) && Joins(e, Ids(m.nodes)) ==> e in m.edges)
  {
    var list := g.edges + h.edges;
    CollectIs(list);
    KeepIs(Collect(list), Ids(Merge(g, h).nodes));
    if e in Merge(g, h).edges { LastOfCollected(list, e); }
    if Last(list, e.id) == Some(e) {
      CollectHas(list, e);
      assert Joins(e, Ids(Merge(g, h).nodes)) ==> e in Keep(Collect(list), Ids(Merge(g, h).nodes));
    }
  }

  lemma LastOfCollected<V>(list: seq<Item<V>>, x: Item<V>)
    requires x in Collect(list)
    ensures Last(list, x.id) == Some(x)
  {
    CollectIs(list);
  }

  lemma CollectHas<V>(list: seq<Item<V>>, x: Item<V>)
    requires Last(list, x.id) == Some(x)
    ensures x in Collect(list)
  {
    CollectIs(list);
    assert x.id in Ids(Collect(list));
    var k :| 0 <= k < |Collect(list)| && Collect(list)[k].id == x.id;
    assert Last(list, Collect(list)[k].id) == Some(Collect(list)[k]);
  }

  // ---- Merging the same graph again changes nothing ----

  /** A prefix of what was collected from `a + b` is what collecting it with `b` again begins with. */
  lemma CollectAgain<V>(a: seq<Item<V>>, b: seq<Item<V>>, kept: seq<Item<V>>)
    requires Distinct(kept) && forall x :: x in kept ==> Last(a + b, x.id) == Some(x)
    ensures |kept| <= |Collect(kept + b)| && Collect(kept + b)[..|kept|] == kept
  {
    var c := Collect(kept + b);
    CollectDistinct(kept);
    CollectPrefix(kept, b);
    CollectIs(kept + b);
    forall i | 0 <= i < |kept|
      ensures c[i] == kept[i]
    {
      assert c[i].id == kept[i].id;
      LastOfAppend(kept, b, c[i].id);
      LastOfAppend(a, b, c[i].id);
      LastOfDistinct(kept, i);
      assert Last(a + b, kept[i].id) == Some(kept[i]);
    }
  }

  lemma NodesAgain(g: Graph, h: Graph)
    ensures var all, again := Collect(g.nodes + h.nodes), Collect(Merge(g, h).nodes + h.nodes);
            && First(again, MAX_NODES) == Merge(g, h).nodes
            && (|all| <= MAX_NODES ==> again == all)
  {
    var all, kept := Collect(g.nodes + h.nodes), Merge(g, h).nodes;
    var again := Collect(kept + h.nodes);
    CollectIs(g.nodes + h.nodes);
    CollectAgain(g.nodes, h.nodes, kept);
    if |all| <= MAX_NODES && |again| > |kept| {
      CollectTail(kept, h.nodes, |kept|);
      LastOfAppend(g.nodes, h.nodes, again[|kept|].id);
      assert false;
    }
  }

  lemma EdgesAgain(g: Graph, h: Graph)
    ensures var m := Merge(g, h);
            var edges := Keep(Collect(g.edges + h.edges), Ids(m.nodes));
            var again := Keep(Collect(m.edges + h.edges), Ids(m.nodes));
            && First(again, MAX_EDGES) == m.edges
            && (|edges| <= MAX_EDGES ==> again == edges)
  {
    var m := Merge(g, h);
    var ids := Ids(m.nodes);
    var edges := Keep(Collect(g.edges + h.edges), ids);
    var c := Collect(m.edges + h.edges);
    MergeWellFormed(g, h);
    forall x | x in m.edges
      ensures Last(g.edges + h.edges, x.id) == Some(x)
    {
      EdgesExactly(g, h, x);
    }
    CollectAgain(g.edges, h.edges, m.edges);
    KeepHead(c, |m.edges|, ids);
    if |edges| <= MAX_EDGES {
      KeptDistinct(g, h, ids);
      forall i | |m.edges| <= i < |c|
        ensures !Joins(c[i], ids)
      {
        TailNotKept(g, h, ids, edges, i);
      }
      KeepOnly(c, |m.edges|, ids);
    }
  }

  lemma KeptDistinct(g: Graph, h: Graph, ids: set<string>)
    ensures Distinct(Keep(Collect(g.edges + h.edges), ids))
  {
    CollectIs(g.edges + h.edges);
    KeepDistinct(Collect(g.edges + h.edges), ids);
  }

  /** A head that joins throughout is kept whole, in front. */
  lemma KeepHead(c: seq<Edge>, n: nat, ids: set<string>)
    requires n <= |c| && forall e :: e in c[..n] ==> Joins(e, ids)
    ensures |Keep(c, ids)| >= n && Keep(c, ids)[..n] == c[..n]
  {
    assert c == c[..n] + c[n..];
    KeepAppend(c[..n], c[n..], ids);
    KeepAll(c[..n], ids);
  }

  lemma KeepOnly(c: seq<Edge>, n: nat, ids: set<string>)
    requires n <= |c| && forall e :: e in c[..n] ==> Joins(e, ids)
    requires forall i :: n <= i < |c| ==> !Joins(c[i], ids)
    ensures Keep(c, ids) == c[..n]
  {
    assert c == c[..n] + c[n..];
    KeepAppend(c[..n], c[n..], ids);
    KeepAll(c[..n], ids);
    KeepNone(c[n..], ids);
  }

  lemma TailNotKept(g: Graph, h: Graph, ids: set<string>, edges: seq<Edge>, i: nat)
    requires edges == Keep(Collect(g.edges + h.edges), ids) && Distinct(edges)
    requires |edges| <= i < |Collect(edges + h.edges)|
    ensures !Joins(Collect(edges + h.edges)[i], ids)
  {
    var x := Collect(edges + h.edges)[i];
    CollectTail(edges, h.edges, i);
    LastOfAppend(g.edges, h.edges, x.id);
    CollectIs(g.edges + h.edges);
    var c := Collect(g.edges + h.edges);
    assert x.id in Ids(c);
    var k :| 0 <= k < |c| && c[k].id == x.id;
    assert c[k] == x;
    KeepIs(c, ids);
    forall j | 0 <= j < |edges|
      ensures edges[j] != x
    {
      assert edges[j].id in Ids(edges);
    }
  }

  lemma MergeAgain(g: Graph, h: Graph)
    ensures Merge(Merge(g, h), h) == Merge(g, h)
  {
    NodesAgain(g, h);
    EdgesAgain(g, h);
  }
}
