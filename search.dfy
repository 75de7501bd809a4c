/**
 * The breadth-first search of the word-ladder solver, as functions on a search state.
 *
 * A state holds the predecessor map (each visited word to its parent, the source to
 * None), the insertion order of that map's keys, and the FIFO queue of words still to
 * be explored. Explore is one call of explore_word, Run is the loop of build_tree; Inv
 * is the invariant they keep: the map is a parent-pointer tree whose every edge is an
 * adjacency, and the queue is exactly the most recently discovered words.
 */
module Search {
  import opened Words
  import opened Adjacency

  datatype State = State(visited: map<Word, Option<Word>>, order: seq<Word>, queue: seq<Word>)

  /** The state build_tree starts from: the source maps to None and is the only queued word. */
  function Init(source: Word): (r: State)
  {
    State(map[source := None], [source], [source])
  }

  /** A target was given and is a key of the predecessor map. */
  predicate Reached(s: State, target: Option<Word>)
  {
    target.Some? && target.value in s.visited
  }

  /**
   * explore_word: walk the candidates in order, skip those already visited, record the
   * parent of each new one, stop right after recording the target, and queue the others.
   */
  function Explore(s: State, parent: Word, cands: seq<Word>, target: Option<Word>): (r: State)
    decreases |cands|
  {
    if cands == [] then s
    else
      var c := cands[0];
      if c in s.visited then Explore(s, parent, cands[1..], target)
      else if Some(c) == target then State(s.visited[c := Some(parent)], s.order + [c], s.queue)
      else Explore(State(s.visited[c := Some(parent)], s.order + [c], s.queue + [c]), parent, cands[1..], target)
  }

  /**
   * explore_word only adds keys, each taken from the candidates, never overwrites a key,
   * and queues nothing when it adds no key.
   */
  lemma {:induction false} ExploreFrame(s: State, parent: Word, cands: seq<Word>, target: Option<Word>)
    ensures var r := Explore(s, parent, cands, target);
            && s.visited.Keys <= r.visited.Keys
            && (forall w :: w in r.visited && w !in s.visited ==> w in cands)
            && (forall w :: w in s.visited ==> r.visited[w] == s.visited[w])
            && (r.visited.Keys == s.visited.Keys ==> r.queue == s.queue)
    decreases |cands|
  {
    if cands != [] {
      var c := cands[0];
      if c in s.visited {
        ExploreFrame(s, parent, cands[1..], target);
      } else if Some(c) != target {
        var s' := State(s.visited[c := Some(parent)], s.order + [c], s.queue + [c]);
        ExploreFrame(s', parent, cands[1..], target);
        assert c in Explore(s', parent, cands[1..], target).visited;
      }
    }
  }

  /** The state after dequeueing the front word (@queue.shift). */
  function Dequeue(s: State): (r: State)
    requires s.queue != []
  {
    State(s.visited, s.order, s.queue[1..])
  }

  /** The loop of build_tree: until the queue is empty or the target is a key, dequeue and explore. */
  function Run(dict: set<Word>, s: State, target: Option<Word>): (r: State)
    requires s.visited.Keys <= dict
    ensures r.queue == [] || Reached(r, target)
    decreases dict - s.visited.Keys, |s.queue|
  {
    if s.queue == [] || Reached(s, target) then s
    else
      var current := s.queue[0];
      AdjacentInDict(dict, current);
      var next := Explore(Dequeue(s), current, Adjacent(dict, current), target);
      ExploreFrame(Dequeue(s), current, Adjacent(dict, current), target);
      assert next.visited.Keys == s.visited.Keys || dict - next.visited.Keys < dict - s.visited.Keys;
      Run(dict, next, target)
  }

  // ---------------------------------------------------------------- the invariant

  ghost predicate NoDups(ws: seq<Word>)
  {
    forall i, j :: 0 <= i < j < |ws| ==> ws[i] != ws[j]
  }

  /** The target was given, is a key, and is not the source (its parent is a word). */
  ghost predicate Discovered(s: State, target: Option<Word>)
  {
    Reached(s, target) && s.visited[target.value].Some?
  }

  /** The k-th key has a parent that was a key before it, and is a neighbour of that parent. */
  ghost predicate ParentEarlier(dict: set<Word>, visited: map<Word, Option<Word>>, order: seq<Word>, k: nat)
    requires k < |order| && order[k] in visited
  {
    var p := visited[order[k]];
    p.Some? && p.value in order[..k] && order[k] in Adjacent(dict, p.value)
  }

  /** The queue holds the last discovered words, the target excepted when it was discovered. */
  ghost predicate QueueIsTail(s: State, target: Option<Word>)
  {
    var n := |s.order|;
    if Discovered(s, target) then
      0 < n && s.order[n - 1] == target.value && |s.queue| < n && s.queue == s.order[n - 1 - |s.queue|..n - 1]
    else
      |s.queue| <= n && s.queue == s.order[n - |s.queue|..]
  }

  /** The predecessor map is a tree over dictionary words, rooted at the first key. */
  ghost predicate TreeInv(dict: set<Word>, visited: map<Word, Option<Word>>, order: seq<Word>)
  {
    && NoDups(order)
    && (forall w :: w in visited <==> w in order)
    && visited.Keys <= dict
    && (0 < |order| ==> visited[order[0]] == None)
    && (forall k :: 0 < k < |order| ==> ParentEarlier(dict, visited, order, k))
  }

  ghost predicate Inv(dict: set<Word>, s: State, target: Option<Word>)
  {
    TreeInv(dict, s.visited, s.order) && QueueIsTail(s, target)
  }

  // ---------------------------------------------------------------- consequences of the invariant

  /** The position of a word in a sequence, or the length when it is absent. */
  ghost function IndexOf(ws: seq<Word>, w: Word): (k: nat)
    ensures k <= |ws| && (k < |ws| <==> w in ws)
    ensures k < |ws| ==> ws[k] == w && w !in ws[..k]
  {
    if ws == [] then 0
    else if ws[0] == w then 0
    else
      assert ws[1..][..IndexOf(ws[1..], w)] == ws[1..IndexOf(ws[1..], w) + 1];
      1 + IndexOf(ws[1..], w)
  }

  /** Only the root has no parent; every other key has an earlier key as parent and is its neighbour. */
  lemma ParentOf(dict: set<Word>, visited: map<Word, Option<Word>>, order: seq<Word>, x: Word)
    requires TreeInv(dict, visited, order) && x in visited
    ensures visited[x] == None <==> x == order[0]
    ensures visited[x].Some? ==>
              var p := visited[x].value;
              p in visited && IndexOf(order, p) < IndexOf(order, x) && x in Adjacent(dict, p)
  {
    var k := IndexOf(order, x);
    if k > 0 {
      assert ParentEarlier(dict, visited, order, k);
      var p := visited[x].value;
      var j := IndexOf(order, p);
      assert p in order[..k];
      var j' :| 0 <= j' < k && order[j'] == p;
      assert j <= j';
    }
  }

  /** A slice of a sequence without duplicates has none, holds only its elements, and not the one after it. */
  lemma SliceFacts(ws: seq<Word>, lo: nat, hi: nat)
    requires lo <= hi <= |ws| && NoDups(ws)
    ensures NoDups(ws[lo..hi])
    ensures forall w :: w in ws[lo..hi] ==> w in ws
    ensures hi < |ws| ==> ws[hi] !in ws[lo..hi]
  {
    forall i, j | 0 <= i < j < hi - lo
      ensures ws[lo..hi][i] != ws[lo..hi][j]
    {
      assert ws[lo..hi][i] == ws[lo + i] && ws[lo..hi][j] == ws[lo + j];
    }
    forall w | w in ws[lo..hi]
      ensures w in ws
    {
      var i :| 0 <= i < hi - lo && ws[lo..hi][i] == w;
      assert ws[lo + i] == w;
    }
  }

  /** The queue has no duplicates, holds only keys, and holds the target only when it is the source. */
  lemma QueueFacts(dict: set<Word>, s: State, target: Option<Word>)
    requires Inv(dict, s, target)
    ensures NoDups(s.queue)
    ensures forall w :: w in s.queue ==> w in s.visited
    ensures target.Some? && target.value in s.queue ==> target.value == s.order[0]
  {
    var n := |s.order|;
    if Discovered(s, target) {
      SliceFacts(s.order, n - 1 - |s.queue|, n - 1);
    } else {
      SliceFacts(s.order, n - |s.queue|, n);
      if target.Some? && target.value in s.queue {
        ParentOf(dict, s.visited, s.order, target.value);
      }
    }
  }

  lemma InitInv(dict: set<Word>, source: Word, target: Option<Word>)
    requires source in dict
    ensures Inv(dict, Init(source), target)
  {
  }

  /** Recording one new word under a parent that is a key keeps the map a tree. */
  lemma DiscoverTree(dict: set<Word>, s: State, parent: Word, c: Word)
    requires TreeInv(dict, s.visited, s.order)
    requires parent in s.visited && c !in s.visited && c in dict && c in Adjacent(dict, parent)
    ensures TreeInv(dict, s.visited[c := Some(parent)], s.order + [c])
  {
    var v := s.visited[c := Some(parent)];
    var o := s.order + [c];
    var n := |s.order|;
    assert 0 < n;
    assert o[..n] == s.order;
    forall k | 0 < k < |o|
      ensures ParentEarlier(dict, v, o, k)
    {
      if k < n {
        assert ParentEarlier(dict, s.visited, s.order, k);
        assert o[..k] == s.order[..k];
      } else {
        assert parent in o[..k];
      }
    }
  }

  /** Recording one new word keeps the queue the tail of the discovered words. */
  lemma DiscoverQueue(s: State, parent: Word, c: Word, target: Option<Word>)
    requires QueueIsTail(s, target) && !Reached(s, target) && c !in s.visited
    ensures var v := s.visited[c := Some(parent)];
            var o := s.order + [c];
            if Some(c) == target then QueueIsTail(State(v, o, s.queue), target)
            else QueueIsTail(State(v, o, s.queue + [c]), target) && !Reached(State(v, o, s.queue + [c]), target)
  {
    var v := s.visited[c := Some(parent)];
    var o := s.order + [c];
    var n := |s.order|;
    if Some(c) == target {
      assert Discovered(State(v, o, s.queue), target);
      assert o[n - |s.queue|..n] == s.order[n - |s.queue|..];
    } else {
      assert !Discovered(State(v, o, s.queue + [c]), target);
      assert o[n + 1 - |s.queue + [c]|..] == s.order[n - |s.queue|..] + [c];
    }
  }

  lemma DiscoverInv(dict: set<Word>, s: State, parent: Word, c: Word, target: Option<Word>)
    requires Inv(dict, s, target) && !Reached(s, target)
    requires parent in s.visited && c !in s.visited && c in dict && c in Adjacent(dict, parent)
    ensures var v := s.visited[c := Some(parent)];
            var o := s.order + [c];
            if Some(c) == target then Inv(dict, State(v, o, s.queue), target)
            else Inv(dict, State(v, o, s.queue + [c]), target) && !Reached(State(v, o, s.queue + [c]), target)
  {
    DiscoverQueue(s, parent, c, target);
    DiscoverTree(dict, s, parent, c);
  }

  /** explore_word keeps the invariant, when its word is a key and the target is not yet one. */
  lemma {:induction false} ExploreInv(dict: set<Word>, s: State, parent: Word, cands: seq<Word>, target: Option<Word>)
    requires Inv(dict, s, target) && !Reached(s, target) && parent in s.visited
    requires forall c :: c in cands ==> c in Adjacent(dict, parent)
    ensures Inv(dict, Explore(s, parent, cands, target), target)
    decreases |cands|
  {
    if cands != [] {
      var c := cands[0];
      if c in s.visited {
        ExploreInv(dict, s, parent, cands[1..], target);
      } else {
        AdjacentInDict(dict, parent);
        DiscoverInv(dict, s, parent, c, target);
        if Some(c) != target {
          var s' := State(s.visited[c := Some(parent)], s.order + [c], s.queue + [c]);
          ExploreInv(dict, s', parent, cands[1..], target);
        }
      }
    }
  }

  /**
   * Queue discipline of explore_word: the queue only grows at its end, and every word it
   * appends was not a key before, is now a key whose parent is the explored word, and is
   * not the target.
   */
  lemma {:induction false} ExploreQueue(s: State, parent: Word, cands: seq<Word>, target: Option<Word>)
    ensures var r := Explore(s, parent, cands, target);
            && |s.queue| <= |r.queue| && r.queue[..|s.queue|] == s.queue
            && forall k :: |s.queue| <= k < |r.queue| ==>
                 r.queue[k] !in s.visited && r.queue[k] in r.visited && r.visited[r.queue[k]] == Some(parent)
                 && Some(r.queue[k]) != target
    decreases |cands|
  {
    if cands != [] {
      var c := cands[0];
      if c in s.visited {
        ExploreQueue(s, parent, cands[1..], target);
      } else if Some(c) != target {
        var s' := State(s.visited[c := Some(parent)], s.order + [c], s.queue + [c]);
        ExploreQueue(s', parent, cands[1..], target);
        ExploreFrame(s', parent, cands[1..], target);
        var r := Explore(s', parent, cands[1..], target);
        assert r.queue[..|s'.queue|][..|s.queue|] == r.queue[..|s.queue|];
      }
    }
  }

  /** Dequeueing the front word keeps the invariant. */
  lemma DequeueInv(dict: set<Word>, s: State, target: Option<Word>)
    requires Inv(dict, s, target) && s.queue != [] && !Reached(s, target)
    ensures Inv(dict, Dequeue(s), target)
    ensures s.queue[0] in s.visited
  {
    QueueFacts(dict, s, target);
    var s1 := Dequeue(s);
    var n := |s.order|;
    assert s.order[n - |s.queue|..][1..] == s.order[n - |s1.queue|..];
  }

  /**
   * One turn of the loop of build_tree shrinks the loop's measure, and the rest of the
   * loop runs from the state it leaves.
   */
  lemma RunStep(dict: set<Word>, s: State, target: Option<Word>)
    requires s.visited.Keys <= dict && s.queue != [] && !Reached(s, target)
    ensures var next := Explore(Dequeue(s), s.queue[0], Adjacent(dict, s.queue[0]), target);
            && next.visited.Keys <= dict
            && Run(dict, s, target) == Run(dict, next, target)
            && (next.visited.Keys == s.visited.Keys ==> |next.queue| < |s.queue|)
            && (next.visited.Keys != s.visited.Keys ==> dict - next.visited.Keys < dict - s.visited.Keys)
  {
    AdjacentInDict(dict, s.queue[0]);
    ExploreFrame(Dequeue(s), s.queue[0], Adjacent(dict, s.queue[0]), target);
  }

  /** The loop of build_tree keeps the invariant. */
  lemma {:induction false} RunInv(dict: set<Word>, s: State, target: Option<Word>)
    requires Inv(dict, s, target)
    ensures Inv(dict, Run(dict, s, target), target)
    decreases dict - s.visited.Keys, |s.queue|
  {
    if !(s.queue == [] || Reached(s, target)) {
      RunStep(dict, s, target);
      DequeueInv(dict, s, target);
      AdjacentInDict(dict, s.queue[0]);
      ExploreInv(dict, Dequeue(s), s.queue[0], Adjacent(dict, s.queue[0]), target);
      RunInv(dict, Explore(Dequeue(s), s.queue[0], Adjacent(dict, s.queue[0]), target), target);
    }
  }

  /** The loop of build_tree never overwrites a key: every key keeps the parent it was given. */
  lemma {:induction false} RunKeepsKeys(dict: set<Word>, s: State, target: Option<Word>)
    requires s.visited.Keys <= dict
    ensures var r := Run(dict, s, target);
            forall w :: w in s.visited ==> w in r.visited && r.visited[w] == s.visited[w]
    decreases dict - s.visited.Keys, |s.queue|
  {
    if !(s.queue == [] || Reached(s, target)) {
      var current := s.queue[0];
      AdjacentInDict(dict, current);
      ExploreFrame(Dequeue(s), current, Adjacent(dict, current), target);
      var next := Explore(Dequeue(s), current, Adjacent(dict, current), target);
      assert next.visited.Keys == s.visited.Keys || dict - next.visited.Keys < dict - s.visited.Keys;
      RunKeepsKeys(dict, next, target);
    }
  }

  /** A full search from a dictionary word ends in a state that satisfies the invariant. */
  lemma SearchInv(dict: set<Word>, source: Word, target: Option<Word>, r: State)
    requires source in dict && r == Run(dict, Init(source), target)
    ensures Inv(dict, r, target)
    ensures 0 < |r.order| && r.order[0] == source
  {
    InitInv(dict, source, target);
    RunInv(dict, Init(source), target);
    RunKeepsKeys(dict, Init(source), target);
    ParentOf(dict, r.visited, r.order, source);
  }

  // ---------------------------------------------------------------- paths in the tree

  /** p follows parent pointers: it starts at a key without parent and each word is the parent of the next. */
  ghost predicate TreePath(s: State, p: seq<Word>)
  {
    && 0 < |p|
    && (forall k :: 0 <= k < |p| ==> p[k] in s.visited)
    && s.visited[p[0]] == None
    && (forall k :: 0 <= k < |p| - 1 ==> s.visited[p[k + 1]] == Some(p[k]))
  }

  /** Consecutive words of p are neighbours: p is a word ladder. */
  ghost predicate Ladder(dict: set<Word>, p: seq<Word>)
  {
    forall k :: 0 <= k < |p| - 1 ==> p[k + 1] in Adjacent(dict, p[k])
  }

  /** In a state satisfying the invariant, a parent-pointer path starts at the source, is a
      word ladder of dictionary words, and never repeats a word. */
  lemma TreePathIsLadder(dict: set<Word>, s: State, target: Option<Word>, p: seq<Word>)
    requires Inv(dict, s, target) && TreePath(s, p)
    ensures p[0] == s.order[0]
    ensures Ladder(dict, p)
    ensures forall k :: 0 <= k < |p| ==> p[k] in dict
    ensures NoDups(p)
  {
    ParentOf(dict, s.visited, s.order, p[0]);
    forall k | 0 <= k < |p| - 1
      ensures p[k + 1] in Adjacent(dict, p[k]) && IndexOf(s.order, p[k]) < IndexOf(s.order, p[k + 1])
    {
      ParentOf(dict, s.visited, s.order, p[k + 1]);
    }
    IndexIncreasing(s, p);
  }

  /** Ruby's Hash#[]: the parent of a key, and None (nil) for a word that is not a key. */
  function ParentLookup(s: State, w: Word): (r: Option<Word>)
  {
    if w in s.visited then s.visited[w] else None
  }

  /**
   * The loop invariant of find_path walking back from w: path is the part of the walk
   * built so far (front first), current the word to put in front of it next.
   */
  ghost predicate Walk(s: State, w: Word, path: seq<Word>, current: Option<Word>)
  {
    && (path == [] ==> current == Some(w))
    && (path != [] ==> path[|path| - 1] == w)
    && (w !in s.visited && path != [] ==> path == [w] && current == None)
    && (w in s.visited ==> forall k :: 0 <= k < |path| ==> path[k] in s.visited)
    && (forall k :: 0 < k < |path| ==> path[k] in s.visited && s.visited[path[k]] == Some(path[k - 1]))
    && (path != [] ==> ParentLookup(s, path[0]) == current)
    && (current.Some? && path != [] ==> current.value in s.visited)
  }

  /** The measure of the walk: the position of the next word in the insertion order. */
  ghost function WalkRank(s: State, current: Option<Word>): nat
  {
    if current.Some? then IndexOf(s.order, current.value) + 1 else 0
  }

  /** One step of find_path keeps its invariant and moves to an earlier key (or stops). */
  lemma WalkStep(dict: set<Word>, s: State, target: Option<Word>, w: Word, path: seq<Word>, current: Option<Word>)
    requires Inv(dict, s, target) && Walk(s, w, path, current) && current.Some?
    ensures var next := ParentLookup(s, current.value);
            Walk(s, w, [current.value] + path, next) && WalkRank(s, next) < WalkRank(s, current)
  {
    var word := current.value;
    var path' := [word] + path;
    if word in s.visited {
      ParentOf(dict, s.visited, s.order, word);
    }
    assert forall k :: 1 <= k < |path'| ==> path'[k] == path[k - 1];
  }

  /** When the walk stops, the path is [w] for a word that is not a key, and otherwise
      the parent-pointer path from the source to w, a word ladder. */
  lemma WalkDone(dict: set<Word>, s: State, target: Option<Word>, w: Word, path: seq<Word>)
    requires Inv(dict, s, target) && Walk(s, w, path, None)
    ensures 0 < |path| && path[|path| - 1] == w
    ensures w !in s.visited ==> path == [w]
    ensures w in s.visited ==> TreePath(s, path) && path[0] == s.order[0] && Ladder(dict, path)
  {
    if w in s.visited {
      assert TreePath(s, path);
      TreePathIsLadder(dict, s, target, path);
    }
  }

  lemma {:induction false} IndexIncreasing(s: State, p: seq<Word>)
    requires forall k :: 0 <= k < |p| - 1 ==> IndexOf(s.order, p[k]) < IndexOf(s.order, p[k + 1])
    ensures forall i, j :: 0 <= i < j < |p| ==> IndexOf(s.order, p[i]) < IndexOf(s.order, p[j])
    ensures NoDups(p)
  {
    if |p| > 1 {
      IndexIncreasing(s, p[1..]);
      assert forall j :: 1 <= j < |p| ==> p[j] == p[1..][j - 1];
      assert forall j :: 1 <= j < |p| ==> IndexOf(s.order, p[1]) <= IndexOf(s.order, p[j]);
    }
  }
}
