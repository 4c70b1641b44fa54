/** State changes of indicator entries flood along "parent" edges, through entries that still differ
    from the new value, and stop at entries that already agree. This module says which nodes such a
    flood visits, for any finite parent graph, cycles included, and proves the set laws that a
    depth-first walk needs. `open` is always the set of nodes that still differ. */
module Flood {

  type Graph<N> = map<N, seq<N>>

  ghost function Elements<N>(s: seq<N>): set<N> {
    set n | n in s
  }

  ghost predicate Edge<N>(graph: Graph<N>, m: N, n: N) {
    m in graph && n in graph[m]
  }

  /** n can be reached from some node of `starts` in k steps, every node on the way being open. */
  ghost predicate ReachIn<N>(graph: Graph<N>, starts: set<N>, open: set<N>, n: N, k: nat)
    decreases k
  {
    && n in open
    && if k == 0 then n in starts
       else exists m | m in open :: Edge(graph, m, n) && ReachIn(graph, starts, open, m, k - 1)
  }

  ghost function Reach<N>(graph: Graph<N>, starts: set<N>, open: set<N>): set<N> {
    set n | n in open && exists k: nat :: ReachIn(graph, starts, open, n, k)
  }

  /** X contains the open starts and every open parent of its open members. */
  ghost predicate Absorbs<N>(graph: Graph<N>, starts: set<N>, open: set<N>, X: set<N>) {
    && (forall s | s in starts && s in open :: s in X)
    && (forall m, n | m in X && m in open && n in open && Edge(graph, m, n) :: n in X)
  }

  lemma ReachAbsorbs<N>(graph: Graph<N>, starts: set<N>, open: set<N>)
    ensures Absorbs(graph, starts, open, Reach(graph, starts, open))
  {
    var R := Reach(graph, starts, open);
    forall s | s in starts && s in open ensures s in R {
      assert ReachIn(graph, starts, open, s, 0);
    }
    forall m, n | m in R && m in open && n in open && Edge(graph, m, n) ensures n in R {
      var k: nat :| ReachIn(graph, starts, open, m, k);
      assert ReachIn(graph, starts, open, n, k + 1);
    }
  }

  lemma {:induction false} ReachInStaysInside<N>(graph: Graph<N>, starts: set<N>, open: set<N>, X: set<N>, n: N, k: nat)
    requires Absorbs(graph, starts, open, X)
    requires ReachIn(graph, starts, open, n, k)
    ensures n in X
    decreases k
  {
    if k > 0 {
      var m :| m in open && Edge(graph, m, n) && ReachIn(graph, starts, open, m, k - 1);
      ReachInStaysInside(graph, starts, open, X, m, k - 1);
    }
  }

  /** The flood is the least absorbing set. */
  lemma ReachIsLeast<N>(graph: Graph<N>, starts: set<N>, open: set<N>, X: set<N>)
    requires Absorbs(graph, starts, open, X)
    ensures Reach(graph, starts, open) <= X
  {
    forall n | n in Reach(graph, starts, open) ensures n in X {
      var k: nat :| ReachIn(graph, starts, open, n, k);
      ReachInStaysInside(graph, starts, open, X, n, k);
    }
  }

  lemma ReachMonotone<N>(graph: Graph<N>, starts: set<N>, starts': set<N>, open: set<N>, open': set<N>)
    requires starts <= starts' && open <= open'
    ensures Reach(graph, starts, open) <= Reach(graph, starts', open')
  {
    ReachAbsorbs(graph, starts', open');
    ReachIsLeast(graph, starts, open, Reach(graph, starts', open'));
  }

  /** Visiting an open node closes it and then floods from all its parents. */
  lemma ReachFromNode<N>(graph: Graph<N>, s: N, open: set<N>)
    requires s in open && s in graph
    ensures Reach(graph, {s}, open) == {s} + Reach(graph, Elements(graph[s][..|graph[s]|]), open - {s})
  {
    var parents := Elements(graph[s]);
    assert graph[s][..|graph[s]|] == graph[s];
    var inner := Reach(graph, parents, open - {s});
    var whole := Reach(graph, {s}, open);
    ReachAbsorbs(graph, {s}, open);
    ReachAbsorbs(graph, parents, open - {s});
    assert Absorbs(graph, parents, open - {s}, whole);
    ReachIsLeast(graph, parents, open - {s}, whole);
    assert Absorbs(graph, {s}, open, {s} + inner) by {
      forall m, n | m in {s} + inner && m in open && n in open && Edge(graph, m, n) ensures n in {s} + inner {
        if n != s && m == s {
          assert n in parents;
        }
      }
    }
    ReachIsLeast(graph, {s}, open, {s} + inner);
  }

  /** Flooding from A and then, through what is still open, from B floods from both at once: the
      order in which a node's parents are visited does not matter. */
  lemma ReachInTurn<N>(graph: Graph<N>, A: set<N>, B: set<N>, open: set<N>)
    ensures Reach(graph, A + B, open)
         == Reach(graph, A, open) + Reach(graph, B, open - Reach(graph, A, open))
  {
    var first := Reach(graph, A, open);
    var second := Reach(graph, B, open - first);
    ReachMonotone(graph, A, A + B, open, open);
    ReachMonotone(graph, B, A + B, open - first, open);
    ReachAbsorbs(graph, A, open);
    ReachAbsorbs(graph, B, open - first);
    assert Absorbs(graph, A + B, open, first + second) by {
      forall s | s in A + B && s in open ensures s in first + second {
        if s !in first {
          assert s in B && s in open - first;
        }
      }
    }
    ReachIsLeast(graph, A + B, open, first + second);
  }

  lemma ReachFromNothing<N>(graph: Graph<N>, starts: seq<N>, open: set<N>)
    ensures Reach(graph, Elements(starts[..0]), open) == {}
  {
    ReachIsLeast(graph, Elements(starts[..0]), open, {});
  }

  lemma ReachOneMore<N>(graph: Graph<N>, starts: seq<N>, i: nat, open: set<N>)
    requires i < |starts|
    ensures var before := Reach(graph, Elements(starts[..i]), open);
            Reach(graph, Elements(starts[..i + 1]), open) == before + Reach(graph, {starts[i]}, open - before)
  {
    assert Elements(starts[..i + 1]) == Elements(starts[..i]) + {starts[i]};
    ReachInTurn(graph, Elements(starts[..i]), {starts[i]}, open);
  }

  /** After flooding from s, every ancestor of s agrees with the new value if and only if each
      ancestor that agreed beforehand has only parents that agree afterwards. An entry that already
      agreed stops the flood, so it can hide a parent that differs. */
  lemma AncestorsAgreeIff<N>(graph: Graph<N>, s: N, all: set<N>, open: set<N>)
    requires open <= all && s in all
    ensures Reach(graph, {s}, all) * open <= Reach(graph, {s}, open)
       <==> forall m, n | m in Reach(graph, {s}, all) - open && n in open && Edge(graph, m, n) ::
              n in Reach(graph, {s}, open)
  {
    var ancestors, flooded := Reach(graph, {s}, all), Reach(graph, {s}, open);
    ReachAbsorbs(graph, {s}, all);
    ReachAbsorbs(graph, {s}, open);
    ReachMonotone(graph, {s}, {s}, open, all);
    if forall m, n | m in ancestors - open && n in open && Edge(graph, m, n) :: n in flooded {
      var X := (ancestors - open) + flooded;
      assert Absorbs(graph, {s}, all, X);
      ReachIsLeast(graph, {s}, all, X);
    }
  }

  /** In particular they all agree when no entry that agrees has a parent that differs. */
  lemma NothingHidden<N>(graph: Graph<N>, s: N, all: set<N>, open: set<N>)
    requires open <= all && s in all && forall m, n | m in all - open && n in open :: !Edge(graph, m, n)
    ensures Reach(graph, {s}, all) * open <= Reach(graph, {s}, open)
  {
    AncestorsAgreeIff(graph, s, all, open);
  }

  /** The hidden parent is real: 0 -> 1 -> 2 where 1 already agrees leaves 2 behind. */
  lemma AgreeingEntryHidesItsParents()
    ensures var graph := map[0 := [1], 1 := [2], 2 := []];
            2 in Reach(graph, {0}, {0, 1, 2}) && 2 !in Reach(graph, {0}, {0, 2})
  {
    var graph: Graph<int> := map[0 := [1], 1 := [2], 2 := []];
    assert ReachIn(graph, {0}, {0, 1, 2}, 0, 0);
    assert Edge(graph, 0, 1) && ReachIn(graph, {0}, {0, 1, 2}, 1, 1);
    assert Edge(graph, 1, 2) && ReachIn(graph, {0}, {0, 1, 2}, 2, 2);
    ReachIsLeast(graph, {0}, {0, 2}, {0});
  }
}
