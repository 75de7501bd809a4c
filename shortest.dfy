/**
 * Breadth-first optimality of the word-ladder search.
 *
 * The depth of a key is its number of parent pointers to the root. The search keeps
 * the keys layered by depth:
 *   - depths never decrease along the insertion order;
 *   - no key is more than one level deeper than the word at the front of the queue;
 *   - every neighbour of an explored word is a key at most one level deeper than it.
 * From the layering, the parent-pointer path to any key is a shortest ladder from the
 * source. A search whose queue runs dry leaves out only words that no ladder from the
 * source reaches.
 */
module Shortest {
  import opened Words
  import opened Adjacency
  import opened Search

  /** The number of parent pointers from w back to the root. */
  ghost function Depth(dict: set<Word>, v: map<Word, Option<Word>>, o: seq<Word>, w: Word): nat
    requires TreeInv(dict, v, o) && w in v
    decreases IndexOf(o, w)
  {
    ParentOf(dict, v, o, w);
    match v[w]
    case None => 0
    case Some(p) => 1 + Depth(dict, v, o, p)
  }

  /** Every neighbour of u is a key at most one level deeper than u. */
  ghost predicate Closed(dict: set<Word>, v: map<Word, Option<Word>>, o: seq<Word>, u: Word)
    requires TreeInv(dict, v, o) && u in v
  {
    forall x :: x in Adjacent(dict, u) ==> x in v && Depth(dict, v, o, x) <= Depth(dict, v, o, u) + 1
  }

  /** Depths never decrease along the insertion order. */
  ghost predicate Monotone(dict: set<Word>, v: map<Word, Option<Word>>, o: seq<Word>)
    requires TreeInv(dict, v, o)
  {
    forall i, j :: 0 <= i < j < |o| ==> Depth(dict, v, o, o[i]) <= Depth(dict, v, o, o[j])
  }

  /** No key is deeper than d. */
  ghost predicate Bounded(dict: set<Word>, v: map<Word, Option<Word>>, o: seq<Word>, d: nat)
    requires TreeInv(dict, v, o)
  {
    forall i :: 0 <= i < |o| ==> Depth(dict, v, o, o[i]) <= d
  }

  /** The first e keys are explored, and the keys from position e on are at least d deep. */
  ghost predicate Explored(dict: set<Word>, v: map<Word, Option<Word>>, o: seq<Word>, e: nat, d: nat)
    requires TreeInv(dict, v, o)
  {
    && e <= |o|
    && (forall i :: 0 <= i < e ==> Closed(dict, v, o, o[i]))
    && (forall j :: e <= j < |o| ==> d <= Depth(dict, v, o, o[j]))
  }

  /** Explored, and unless every key is explored, no key is deeper than d + 1. */
  ghost predicate Layers(dict: set<Word>, v: map<Word, Option<Word>>, o: seq<Word>, e: nat, d: nat)
    requires TreeInv(dict, v, o)
  {
    Explored(dict, v, o, e, d) && (e < |o| ==> Bounded(dict, v, o, d + 1))
  }

  /**
   * The layering at the head of build_tree's loop: the keys before the queue are
   * explored, and no key is more than one level deeper than the queue's front.
   */
  ghost predicate Levelled(dict: set<Word>, s: State)
  {
    && TreeInv(dict, s.visited, s.order)
    && |s.queue| <= |s.order|
    && Monotone(dict, s.visited, s.order)
    && (forall i :: 0 <= i < |s.order| - |s.queue| ==> Closed(dict, s.visited, s.order, s.order[i]))
    && (s.queue != [] ==>
          Bounded(dict, s.visited, s.order, Depth(dict, s.visited, s.order, s.order[|s.order| - |s.queue|]) + 1))
  }

  // ---------------------------------------------------------------- depths as the map grows

  /** A key's depth depends only on the parent pointers, so it survives any growth that keeps them. */
  lemma {:induction false} DepthKept(dict: set<Word>, v: map<Word, Option<Word>>, o: seq<Word>,
                                     v': map<Word, Option<Word>>, o': seq<Word>, w: Word)
    requires TreeInv(dict, v, o) && TreeInv(dict, v', o') && w in v
    requires forall x :: x in v ==> x in v' && v'[x] == v[x]
    ensures Depth(dict, v', o', w) == Depth(dict, v, o, w)
    decreases IndexOf(o, w)
  {
    ParentOf(dict, v, o, w);
    if v[w].Some? {
      DepthKept(dict, v, o, v', o', v[w].value);
    }
  }

  lemma DepthsKept(dict: set<Word>, v: map<Word, Option<Word>>, o: seq<Word>,
                   v': map<Word, Option<Word>>, o': seq<Word>)
    requires TreeInv(dict, v, o) && TreeInv(dict, v', o')
    requires forall x :: x in v ==> x in v' && v'[x] == v[x]
    ensures forall x :: x in v ==> Depth(dict, v', o', x) == Depth(dict, v, o, x)
  {
    forall x | x in v
      ensures Depth(dict, v', o', x) == Depth(dict, v, o, x)
    {
      DepthKept(dict, v, o, v', o', x);
    }
  }

  /** A word recorded under u is one level deeper than u, and the old keys keep their depths. */
  lemma GrowDepths(dict: set<Word>, v: map<Word, Option<Word>>, o: seq<Word>, u: Word, c: Word)
    requires TreeInv(dict, v, o) && u in v && c !in v
    requires TreeInv(dict, v[c := Some(u)], o + [c])
    ensures forall x :: x in v ==> Depth(dict, v[c := Some(u)], o + [c], x) == Depth(dict, v, o, x)
    ensures Depth(dict, v[c := Some(u)], o + [c], c) == Depth(dict, v, o, u) + 1
  {
    DepthsKept(dict, v, o, v[c := Some(u)], o + [c]);
  }

  /** Appending a word one level deeper than u keeps the depths monotone when no key is deeper than that. */
  lemma GrowMonotone(dict: set<Word>, v: map<Word, Option<Word>>, o: seq<Word>, u: Word, c: Word)
    requires TreeInv(dict, v, o) && u in v && c !in v
    requires TreeInv(dict, v[c := Some(u)], o + [c])
    requires Monotone(dict, v, o) && Bounded(dict, v, o, Depth(dict, v, o, u) + 1)
    ensures Monotone(dict, v[c := Some(u)], o + [c])
    ensures Bounded(dict, v[c := Some(u)], o + [c], Depth(dict, v, o, u) + 1)
  {
    var v', o' := v[c := Some(u)], o + [c];
    GrowDepths(dict, v, o, u, c);
    forall i | 0 <= i < |o|
      ensures o'[i] == o[i] && o[i] in v
    {
    }
  }

  /** Growth that keeps the parent pointers keeps explored words explored. */
  lemma GrowClosed(dict: set<Word>, v: map<Word, Option<Word>>, o: seq<Word>,
                   v': map<Word, Option<Word>>, o': seq<Word>, e: nat)
    requires TreeInv(dict, v, o) && TreeInv(dict, v', o')
    requires forall x :: x in v ==> x in v' && v'[x] == v[x]
    requires e <= |o| <= |o'| && o'[..|o|] == o
    requires forall i :: 0 <= i < e ==> Closed(dict, v, o, o[i])
    ensures forall i :: 0 <= i < e ==> Closed(dict, v', o', o'[i])
  {
    DepthsKept(dict, v, o, v', o');
    forall i | 0 <= i < e
      ensures Closed(dict, v', o', o'[i])
    {
      assert o'[i] == o[..|o|][i] == o[i];
      assert Closed(dict, v, o, o[i]);
    }
  }

  // ---------------------------------------------------------------- explore_word keeps the layering

  /**
   * The layering while u, the e-th key at depth d, is explored: depths are monotone, no
   * key is deeper than d + 1, and the keys before u are explored.
   */
  ghost predicate Exploring(dict: set<Word>, v: map<Word, Option<Word>>, o: seq<Word>, u: Word, e: nat, d: nat)
  {
    && TreeInv(dict, v, o)
    && e < |o| && o[e] == u && u in v && Depth(dict, v, o, u) == d
    && Monotone(dict, v, o) && Bounded(dict, v, o, d + 1)
    && (forall i :: 0 <= i < e ==> Closed(dict, v, o, o[i]))
  }

  /** Recording a new neighbour of u keeps the layering, one level deeper than u. */
  lemma GrowExploring(dict: set<Word>, s: State, u: Word, c: Word, e: nat, d: nat)
    requires Exploring(dict, s.visited, s.order, u, e, d)
    requires c !in s.visited && c in dict && c in Adjacent(dict, u)
    ensures var v', o' := s.visited[c := Some(u)], s.order + [c];
            Exploring(dict, v', o', u, e, d) && Depth(dict, v', o', c) == d + 1
  {
    var v', o' := s.visited[c := Some(u)], s.order + [c];
    DiscoverTree(dict, s, u, c);
    GrowDepths(dict, s.visited, s.order, u, c);
    GrowMonotone(dict, s.visited, s.order, u, c);
    GrowClosed(dict, s.visited, s.order, v', o', e);
    assert o'[e] == u;
  }

  /** A key no deeper than d + 1 stays so through growth that keeps the parent pointers. */
  lemma KeptShallow(dict: set<Word>, s: State, r: State, c: Word, d: nat)
    requires TreeInv(dict, s.visited, s.order) && TreeInv(dict, r.visited, r.order)
    requires forall x :: x in s.visited ==> x in r.visited && r.visited[x] == s.visited[x]
    requires c in s.visited && Depth(dict, s.visited, s.order, c) <= d + 1
    ensures c in r.visited && Depth(dict, r.visited, r.order, c) <= d + 1
  {
    DepthKept(dict, s.visited, s.order, r.visited, r.order, c);
  }

  /**
   * Exploring u, the e-th key at depth d, records every new candidate one level deeper
   * than u. The layering holds throughout. Unless the target stops the walk, every
   * candidate ends up a key no deeper than d + 1, and the words before the queue are
   * exactly the first e + 1 keys.
   */
  lemma {:induction false} ExploreLayers(dict: set<Word>, s: State, u: Word, cands: seq<Word>, target: Option<Word>,
                                         e: nat, d: nat)
    requires Exploring(dict, s.visited, s.order, u, e, d) && !Reached(s, target)
    requires forall c :: c in cands ==> c in Adjacent(dict, u)
    requires |s.order| == e + 1 + |s.queue|
    ensures var r := Explore(s, u, cands, target);
            && Exploring(dict, r.visited, r.order, u, e, d)
            && (!Reached(r, target) ==>
                  && |r.order| == e + 1 + |r.queue|
                  && forall c :: c in cands ==> c in r.visited && Depth(dict, r.visited, r.order, c) <= d + 1)
    decreases |cands|
  {
    if cands != [] {
      var c := cands[0];
      if c in s.visited {
        ExploreLayers(dict, s, u, cands[1..], target, e, d);
        ExploreFrame(s, u, cands[1..], target);
        var k := IndexOf(s.order, c);
        assert Depth(dict, s.visited, s.order, s.order[k]) <= d + 1;
        KeptShallow(dict, s, Explore(s, u, cands[1..], target), c, d);
      } else {
        AdjacentInDict(dict, u);
        GrowExploring(dict, s, u, c, e, d);
        if Some(c) != target {
          var s' := State(s.visited[c := Some(u)], s.order + [c], s.queue + [c]);
          ExploreLayers(dict, s', u, cands[1..], target, e, d);
          ExploreFrame(s', u, cands[1..], target);
          KeptShallow(dict, s', Explore(s', u, cands[1..], target), c, d);
        }
      }
    }
  }

  // ---------------------------------------------------------------- build_tree keeps the layering

  lemma InitLevelled(dict: set<Word>, source: Word, target: Option<Word>)
    requires source in dict
    ensures Levelled(dict, Init(source))
  {
    InitInv(dict, source, target);
    var s := Init(source);
    assert Depth(dict, s.visited, s.order, source) == 0;
  }

  /** Under the layering, a nonempty queue's front is the first unexplored key, at the depth Layers needs. */
  lemma LevelledLayers(dict: set<Word>, s: State)
    requires Levelled(dict, s) && s.queue != []
    ensures Layers(dict, s.visited, s.order, |s.order| - |s.queue|,
                   Depth(dict, s.visited, s.order, s.order[|s.order| - |s.queue|]))
  {
    var e := |s.order| - |s.queue|;
    forall j | e <= j < |s.order|
      ensures Depth(dict, s.visited, s.order, s.order[e]) <= Depth(dict, s.visited, s.order, s.order[j])
    {
      if e < j {
        assert Monotone(dict, s.visited, s.order);
      }
    }
  }

  /**
   * After exploring u, the e-th key at depth d, to the end: u is explored too, and the
   * queue's new front is at least as deep as u, so the layering holds again.
   */
  lemma ExploredLevelled(dict: set<Word>, r: State, u: Word, e: nat, d: nat)
    requires Exploring(dict, r.visited, r.order, u, e, d)
    requires |r.order| == e + 1 + |r.queue|
    requires forall c :: c in Adjacent(dict, u) ==> c in r.visited && Depth(dict, r.visited, r.order, c) <= d + 1
    ensures Levelled(dict, r)
  {
    assert Closed(dict, r.visited, r.order, r.order[e]);
    if r.queue != [] {
      assert Depth(dict, r.visited, r.order, r.order[e]) <= Depth(dict, r.visited, r.order, r.order[e + 1]);
    }
  }

  /**
   * When exploring u, the e-th key at depth d, stops at the target, the first e keys are
   * explored, the later ones are at least d deep, and none is deeper than d + 1.
   */
  lemma StoppedLayers(dict: set<Word>, r: State, u: Word, e: nat, d: nat)
    requires Exploring(dict, r.visited, r.order, u, e, d)
    ensures Layers(dict, r.visited, r.order, e, d)
  {
    forall j | e <= j < |r.order|
      ensures d <= Depth(dict, r.visited, r.order, r.order[j])
    {
      if e < j {
        assert Depth(dict, r.visited, r.order, r.order[e]) <= Depth(dict, r.visited, r.order, r.order[j]);
      }
    }
  }

  /**
   * One turn of build_tree's loop keeps the layering, or else it records the target,
   * and then the layers are those of the word it explored.
   */
  lemma RunLayersStep(dict: set<Word>, s: State, target: Option<Word>)
    requires Inv(dict, s, target) && Levelled(dict, s) && s.queue != [] && !Reached(s, target)
    ensures var u := s.queue[0];
            var next := Explore(Dequeue(s), u, Adjacent(dict, u), target);
            var e := |s.order| - |s.queue|;
            && TreeInv(dict, next.visited, next.order)
            && (Reached(next, target) ==>
                  Layers(dict, next.visited, next.order, e, Depth(dict, s.visited, s.order, s.order[e])))
            && (!Reached(next, target) ==> Levelled(dict, next))
  {
    var u := s.queue[0];
    var e := |s.order| - |s.queue|;
    assert s.queue == s.order[e..];
    assert u == s.order[e];
    var d := Depth(dict, s.visited, s.order, u);
    ExploreLayers(dict, Dequeue(s), u, Adjacent(dict, u), target, e, d);
    var r := Explore(Dequeue(s), u, Adjacent(dict, u), target);
    if Reached(r, target) {
      StoppedLayers(dict, r, u, e, d);
    } else {
      ExploredLevelled(dict, r, u, e, d);
    }
  }

  /** The loop of build_tree ends in a layered state, wholly explored unless the target is a key. */
  lemma {:induction false} RunLayers(dict: set<Word>, s: State, target: Option<Word>) returns (e: nat, d: nat)
    requires Inv(dict, s, target) && Levelled(dict, s)
    ensures var r := Run(dict, s, target);
            && TreeInv(dict, r.visited, r.order)
            && Layers(dict, r.visited, r.order, e, d)
            && (!Reached(r, target) ==> e == |r.order|)
    decreases dict - s.visited.Keys, |s.queue|
  {
    if s.queue == [] {
      e, d := |s.order|, 0;
    } else if Reached(s, target) {
      LevelledLayers(dict, s);
      e := |s.order| - |s.queue|;
      d := Depth(dict, s.visited, s.order, s.order[e]);
    } else {
      var u := s.queue[0];
      var next := Explore(Dequeue(s), u, Adjacent(dict, u), target);
      RunStep(dict, s, target);
      RunLayersStep(dict, s, target);
      if Reached(next, target) {
        e := |s.order| - |s.queue|;
        d := Depth(dict, s.visited, s.order, s.order[e]);
      } else {
        DequeueInv(dict, s, target);
        AdjacentInDict(dict, u);
        ExploreInv(dict, Dequeue(s), u, Adjacent(dict, u), target);
        e, d := RunLayers(dict, next, target);
      }
    }
  }

  /** A full search from a dictionary word ends layered, and wholly explored unless the target is a key. */
  lemma SearchLayers(dict: set<Word>, source: Word, target: Option<Word>, r: State) returns (e: nat, d: nat)
    requires source in dict && r == Run(dict, Init(source), target)
    ensures TreeInv(dict, r.visited, r.order)
    ensures Layers(dict, r.visited, r.order, e, d)
    ensures !Reached(r, target) ==> e == |r.order|
  {
    InitInv(dict, source, target);
    InitLevelled(dict, source, target);
    e, d := RunLayers(dict, Init(source), target);
  }

  // ---------------------------------------------------------------- shortest ladders

  /** p is a word ladder that starts at source. */
  ghost predicate LadderFrom(dict: set<Word>, source: Word, p: seq<Word>)
  {
    0 < |p| && p[0] == source && Ladder(dict, p)
  }

  /** A key shallower than d is explored, so each of its neighbours is a key at most one level deeper. */
  lemma ShallowStep(dict: set<Word>, v: map<Word, Option<Word>>, o: seq<Word>, e: nat, d: nat, x: Word, y: Word)
    requires TreeInv(dict, v, o) && Explored(dict, v, o, e, d)
    requires x in v && Depth(dict, v, o, x) < d && y in Adjacent(dict, x)
    ensures y in v && Depth(dict, v, o, y) <= Depth(dict, v, o, x) + 1
  {
    var j := IndexOf(o, x);
    assert o[j] == x;
    assert Closed(dict, v, o, o[j]);
  }

  /**
   * Along a ladder from the root, as long as it is at most d + 1 words long, every word
   * is a key no deeper than its position: each step leaves a word shallower than d,
   * hence an explored one.
   */
  lemma {:induction false} LadderDepths(dict: set<Word>, v: map<Word, Option<Word>>, o: seq<Word>,
                                        e: nat, d: nat, p: seq<Word>)
    requires TreeInv(dict, v, o) && Explored(dict, v, o, e, d)
    requires 0 < |p| <= d + 1 && 0 < |o| && p[0] == o[0] && Ladder(dict, p)
    ensures forall i :: 0 <= i < |p| ==> p[i] in v && Depth(dict, v, o, p[i]) <= i
  {
    var k := |p| - 1;
    if k == 0 {
      assert Depth(dict, v, o, o[0]) == 0;
    } else {
      var p' := p[..k];
      assert Ladder(dict, p') by {
        forall j | 0 <= j < |p'| - 1
          ensures p'[j + 1] in Adjacent(dict, p'[j])
        {
          assert p'[j + 1] == p[j + 1] && p'[j] == p[j];
        }
      }
      LadderDepths(dict, v, o, e, d, p');
      assert forall i :: 0 <= i < k ==> p'[i] == p[i];
      assert p[k] in Adjacent(dict, p[k - 1]);
      ShallowStep(dict, v, o, e, d, p[k - 1], p[k]);
    }
  }

  /** In a layered tree, the depth of a key is at most the length of any ladder from the root to it. */
  lemma LayersShortest(dict: set<Word>, v: map<Word, Option<Word>>, o: seq<Word>, e: nat, d: nat, p: seq<Word>)
    requires TreeInv(dict, v, o) && Layers(dict, v, o, e, d)
    requires 0 < |p| && 0 < |o| && p[0] == o[0] && Ladder(dict, p) && p[|p| - 1] in v
    ensures Depth(dict, v, o, p[|p| - 1]) <= |p| - 1
  {
    var k := |p| - 1;
    var w := p[k];
    if e == |o| {
      LadderDepths(dict, v, o, e, k, p);
    } else if k < Depth(dict, v, o, w) {
      var j := IndexOf(o, w);
      assert Depth(dict, v, o, o[j]) <= d + 1;
      LadderDepths(dict, v, o, e, d, p);
    }
  }

  /** A parent-pointer path is exactly as long as the depth of its last word. */
  lemma {:induction false} TreePathDepth(dict: set<Word>, s: State, p: seq<Word>)
    requires TreeInv(dict, s.visited, s.order) && TreePath(s, p)
    ensures Depth(dict, s.visited, s.order, p[|p| - 1]) == |p| - 1
  {
    var k := |p| - 1;
    if k > 0 {
      var p' := p[..k];
      assert forall i :: 0 <= i < k ==> p'[i] == p[i];
      TreePathDepth(dict, s, p');
      assert s.visited[p[k]] == Some(p[k - 1]);
    }
  }

  /**
   * Breadth-first optimality: after a search from a dictionary word, the parent-pointer
   * path to any key (the path find_path returns) is no longer than any ladder from the
   * source to that key.
   */
  lemma ShortestPath(dict: set<Word>, source: Word, target: Option<Word>, r: State, path: seq<Word>, p: seq<Word>)
    requires source in dict && r == Run(dict, Init(source), target)
    requires TreePath(r, path)
    requires LadderFrom(dict, source, p) && p[|p| - 1] == path[|path| - 1]
    ensures |path| <= |p|
  {
    SearchInv(dict, source, target, r);
    var e, d := SearchLayers(dict, source, target, r);
    TreePathDepth(dict, r, path);
    LayersShortest(dict, r.visited, r.order, e, d, p);
  }

  /**
   * Completeness: when a search from a dictionary word ends without the target being a
   * key, every ladder from the source stays among the keys, so none reaches the target.
   */
  lemma Unreachable(dict: set<Word>, source: Word, target: Option<Word>, r: State, p: seq<Word>)
    requires source in dict && r == Run(dict, Init(source), target) && !Reached(r, target)
    requires LadderFrom(dict, source, p)
    ensures forall i :: 0 <= i < |p| ==> p[i] in r.visited
    ensures target.Some? ==> target.value !in p
  {
    SearchInv(dict, source, target, r);
    var e, d := SearchLayers(dict, source, target, r);
    LadderDepths(dict, r.visited, r.order, e, |p| - 1, p);
  }
}
