/** knowledge-graph.ts, mergeGraph: what the bounds keep and what they cut off, and what is reported. */
module MergeBounds {
  import opened Basics
  import opened MergeGraph

  /** Where an id occurs first. */
  function Place<V>(list: seq<Item<V>>, id: string): (p: nat)
    requires id in Ids(list)
    ensures p < |list| && list[p].id == id && forall q :: 0 <= q < p ==> list[q].id != id
  {
    var n := |list| - 1;
    if id in Ids(list[..n]) then Place(list[..n], id)
    else
      assert list == list[..n] + [list[n]];
      n
  }

  lemma PlaceStays<V>(list: seq<Item<V>>, x: Item<V>, id: string)
    requires id in Ids(list)
    ensures id in Ids(list + [x]) && Place(list + [x], id) == Place(list, id)
  {
    IdsAppend(list, x);
    var p := Place(list, id);
    assert (list + [x])[p].id == id && forall q :: 0 <= q < p ==> (list + [x])[q] == list[q];
  }

  lemma PlaceLast<V>(list: seq<Item<V>>, x: Item<V>)
    requires x.id !in Ids(list)
    ensures x.id in Ids(list + [x]) && Place(list + [x], x.id) == |list|
  {
    IdsAppend(list, x);
    assert forall q :: 0 <= q < |list| ==> (list + [x])[q] == list[q] && list[q].id in Ids(list);
  }

  /** Each before the next by where its id occurs first in the list. */
  ghost predicate InOrder<V>(list: seq<Item<V>>, m: seq<Item<V>>) {
    && (forall i :: 0 <= i < |m| ==> m[i].id in Ids(list))
    && forall i, j :: 0 <= i < j < |m| ==> Place(list, m[i].id) < Place(list, m[j].id)
  }

  lemma {:induction false} CollectInOrder<V>(list: seq<Item<V>>)
    ensures InOrder(list, Collect(list))
    decreases |list|
  {
    if list != [] {
      var front, x := list[..|list| - 1], list[|list| - 1];
      assert list == front + [x];
      CollectInOrder(front);
      CollectIs(front);
      PutInOrder(front, Collect(front), x);
    }
  }

  lemma PutInOrder<V>(list: seq<Item<V>>, m: seq<Item<V>>, x: Item<V>)
    requires InOrder(list, m) && Distinct(m) && Ids(m) == Ids(list)
    ensures InOrder(list + [x], Put(m, x))
  {
    PutIs(m, x);
    var p := Put(m, x);
    forall i | 0 <= i < |m|
      ensures p[i].id == m[i].id && p[i].id in Ids(list + [x]) && Place(list + [x], p[i].id) == Place(list, m[i].id)
    {
      PlaceStays(list, x, m[i].id);
    }
    if |p| > |m| { PlaceLast(list, x); }
  }

  /** A part of a list in its order. */
  lemma {:induction false} KeepInOrder(list: seq<Edge>, m: seq<Edge>, ids: set<string>)
    requires InOrder(list, m)
    ensures InOrder(list, Keep(m, ids))
    decreases |m|
  {
    if m != [] {
      var rest := m[1..];
      assert InOrder(list, rest);
      KeepInOrder(list, rest, ids);
      KeepIs(rest, ids);
      var kept := Keep(rest, ids);
      forall j | 0 <= j < |kept|
        ensures Place(list, m[0].id) < Place(list, kept[j].id)
      {
        assert kept[j] in rest;
        var k :| 0 <= k < |rest| && rest[k] == kept[j];
        assert m[k + 1] == kept[j];
      }
    }
  }

  lemma {:induction false} SizeOfIds<V>(m: seq<Item<V>>)
    requires Distinct(m)
    ensures |Ids(m)| == |m|
    decreases |m|
  {
    if m != [] {
      var front, x := m[..|m| - 1], m[|m| - 1];
      assert m == front + [x];
      SizeOfIds(front);
      IdsAppend(front, x);
      assert x.id !in Ids(front);
    }
  }

  /** `m` are the first of these ids, at most `n`, in the order in which they occur first. */
  ghost predicate AreFirst<V>(list: seq<Item<V>>, ids: set<string>, n: nat, m: seq<Item<V>>) {
    && ids <= Ids(list) && Ids(m) <= ids && InOrder(list, m)
    && |m| == (if |ids| <= n then |ids| else n)
    && forall i, id :: 0 <= i < |m| && id in ids && id !in Ids(m) ==> Place(list, m[i].id) < Place(list, id)
  }

  lemma FirstOfOrdered<V>(list: seq<Item<V>>, m: seq<Item<V>>, n: nat)
    requires InOrder(list, m) && Distinct(m)
    ensures AreFirst(list, Ids(m), n, First(m, n))
  {
    SizeOfIds(m);
    var f := First(m, n);
    forall i, id | 0 <= i < |f| && id in Ids(m) && id !in Ids(f)
      ensures Place(list, f[i].id) < Place(list, id)
    {
      var k :| 0 <= k < |m| && m[k].id == id;
      assert forall q :: 0 <= q < |f| ==> f[q] == m[q] && f[q].id in Ids(f);
    }
  }

  /** The nodes of a merge are the first 240 ids of both graphs, in the order in which they occur first. */
  lemma NodesAreFirst(g: Graph, h: Graph)
    ensures AreFirst(g.nodes + h.nodes, Ids(g.nodes + h.nodes), 240, Merge(g, h).nodes)
  {
    CollectIs(g.nodes + h.nodes);
    CollectInOrder(g.nodes + h.nodes);
    FirstOfOrdered(g.nodes + h.nodes, Collect(g.nodes + h.nodes), 240);
  }

  /** The edges whose latest version joins two of these nodes. */
  ghost function Joining(edges: seq<Edge>, nodes: set<string>): set<string> {
    set id | id in Ids(edges) && Last(edges, id).Some? && Joins(Last(edges, id).value, nodes)
  }

  lemma KeptAreJoining(edges: seq<Edge>, nodes: set<string>)
    ensures Ids(Keep(Collect(edges), nodes)) == Joining(edges, nodes)
    ensures Distinct(Keep(Collect(edges), nodes)) && InOrder(edges, Keep(Collect(edges), nodes))
  {
    var c := Collect(edges);
    CollectIs(edges);
    CollectInOrder(edges);
    KeepInOrder(edges, c, nodes);
    KeepDistinct(c, nodes);
    KeepIs(c, nodes);
    var kept := Keep(c, nodes);
    forall id
      ensures id in Ids(kept) <==> id in Joining(edges, nodes)
    {
      if id in Ids(kept) {
        var i :| 0 <= i < |kept| && kept[i].id == id;
        assert kept[i] in c;
        LastOfCollected(edges, kept[i]);
      }
      if id in Joining(edges, nodes) {
        var e := Last(edges, id).value;
        CollectHas(edges, e);
        assert e in kept;
        var i :| 0 <= i < |kept| && kept[i] == e;
        assert kept[i].id == id;
      }
    }
  }

  /** The edges are the first 480 of those whose latest version joins two nodes of the result, in the order in which
      they occur first. */
  lemma EdgesAreFirst(g: Graph, h: Graph)
    ensures var m := Merge(g, h);
            AreFirst(g.edges + h.edges, Joining(g.edges + h.edges, Ids(m.nodes)), 480, m.edges)
  {
    var edges, nodes := g.edges + h.edges, Ids(Merge(g, h).nodes);
    KeptAreJoining(edges, nodes);
    FirstOfOrdered(edges, Keep(Collect(edges), nodes), 480);
  }

  /** Truncation is reported exactly when one of the graphs was truncated before or something is cut off now; the result
      is ready exactly when it has a node, and otherwise in the state of the second graph. */
  lemma ReportedExactly(g: Graph, h: Graph)
    ensures var m := Merge(g, h);
            && (m.truncated <==>
                  g.truncated || h.truncated || |Ids(g.nodes + h.nodes)| > 240
                  || |Joining(g.edges + h.edges, Ids(m.nodes))| > 480)
            && m.state == (if g.nodes == [] && h.nodes == [] then h.state else Ready)
  {
    CollectIs(g.nodes + h.nodes);
    SizeOfIds(Collect(g.nodes + h.nodes));
    var edges, nodes := g.edges + h.edges, Ids(Merge(g, h).nodes);
    KeptAreJoining(edges, nodes);
    SizeOfIds(Keep(Collect(edges), nodes));
    if g.nodes + h.nodes != [] { assert (g.nodes + h.nodes)[0].id in Ids(g.nodes + h.nodes); }
  }
}
