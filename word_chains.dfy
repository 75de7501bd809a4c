/**
 * The WordChainer object: a fixed dictionary, and the state of the last search
 * (the predecessor map, the queue, the source and the target), updated in place by
 * build_tree and read by find_path.
 */
module WordChains {
  import opened Words
  import opened Adjacency
  import opened Search
  import opened Shortest

  /** The errors the solver raises. */
  datatype ChainError =
    | NotInDictionary(word: Word)  // build_tree: the source, or the given target, is not a word
    | MissingTarget                // find_path: no target given and none stored

  datatype Outcome = Pass | Fail(error: ChainError)

  datatype Result<+T> = Ok(value: T) | Err(error: ChainError)

  class WordChainer {
    const dictionary: set<Word>

    /** @visited_words: each reached word to its parent, the source to None. */
    var visited: map<Word, Option<Word>>
    /** The keys of @visited_words in insertion order (a Ruby Hash keeps it). */
    ghost var order: seq<Word>
    var queue: seq<Word>
    var source: Option<Word>
    var target: Option<Word>

    ghost function Snapshot(): State
      reads this
    {
      State(visited, order, queue)
    }

    /** The search state keeps the tree and queue invariant; once a search ran, its source is the root. */
    ghost predicate Valid()
      reads this
    {
      && Inv(dictionary, Snapshot(), target)
      && (source.None? <==> order == [])
      && (source.Some? ==> order[0] == source.value)
    }

    /** The state is that of a finished search from the stored source, a dictionary word. */
    ghost predicate Searched()
      reads this
    {
      source.Some? && source.value in dictionary && Snapshot() == Run(dictionary, Init(source.value), target)
    }

    /** A chainer over a dictionary, before any search: the predecessor map is empty. */
    constructor (dict: set<Word>)
      ensures Valid()
      ensures dictionary == dict && visited == map[] && queue == [] && source == None && target == None
    {
      dictionary := dict;
      visited := map[];
      order := [];
      queue := [];
      source := None;
      target := None;
    }

    /** valid_word?: dictionary membership. */
    predicate ValidWord(word: Word)
    {
      word in dictionary
    }

    /** adjacent_words_switch_one: change one position to another letter, by position then letter. */
    method AdjacentWordsSwitchOne(word: Word) returns (adjacents: seq<Word>)
      ensures adjacents == SwitchOne(dictionary, word)
    {
      adjacents := [];
      for i := 0 to |word|
        invariant adjacents == SwitchUpTo(dictionary, word, i)
      {
        for k := 0 to AlphabetSize
          invariant adjacents == SwitchUpTo(dictionary, word, i) + SwitchAt(dictionary, word, i, k)
        {
          var letter := Letter(k);
          if word[i] != letter {
            var candidate := word[i := letter];
            if ValidWord(candidate) {
              adjacents := adjacents + [candidate];
            }
          }
        }
      }
    }

    /** adjacent_words_del_one: remove one position, left to right. */
    method AdjacentWordsDelOne(word: Word) returns (adjacents: seq<Word>)
      ensures adjacents == DelOne(dictionary, word)
    {
      adjacents := [];
      for i := 0 to |word|
        invariant adjacents == DelUpTo(dictionary, word, i)
      {
        var candidate := word[..i] + word[i + 1..];
        if ValidWord(candidate) {
          adjacents := adjacents + [candidate];
        }
      }
    }

    /** adjacent_words_add_one: insert one letter at positions 0..|word|, by position then letter. */
    method AdjacentWordsAddOne(word: Word) returns (adjacents: seq<Word>)
      ensures adjacents == AddOne(dictionary, word)
    {
      adjacents := [];
      for i := 0 to |word| + 1
        invariant adjacents == AddUpTo(dictionary, word, i)
      {
        for k := 0 to AlphabetSize
          invariant adjacents == AddUpTo(dictionary, word, i) + AddAt(dictionary, word, i, k)
        {
          var candidate := word[..i] + [Letter(k)] + word[i..];
          if ValidWord(candidate) {
            adjacents := adjacents + [candidate];
          }
        }
      }
    }

    /** adjacent_words: the substitutions, then the deletions, then the insertions. */
    method AdjacentWords(word: Word) returns (adjacents: seq<Word>)
      ensures adjacents == Adjacent(dictionary, word)
    {
      var switched := AdjacentWordsSwitchOne(word);
      var deleted := AdjacentWordsDelOne(word);
      var added := AdjacentWordsAddOne(word);
      adjacents := switched + deleted + added;
    }

    /** init_tree: the predecessor map holds only the source; the queue is set by the caller. */
    method InitTree(src: Word, tgt: Option<Word>)
      modifies this
      ensures visited == map[src := None] && order == [src]
      ensures source == Some(src) && target == tgt && queue == old(queue)
    {
      visited := map[src := None];
      order := [src];
      source := Some(src);
      target := tgt;
    }

    /**
     * explore_word: record every not yet visited neighbour of current under it, in
     * generator order, and queue it; stop right after recording the target.
     */
    method ExploreWord(current: Word)
      modifies this
      ensures Snapshot() == Explore(old(Snapshot()), current, Adjacent(dictionary, current), target)
      ensures source == old(source) && target == old(target)
    {
      var adjacents := AdjacentWords(current);
      ghost var final := Explore(Snapshot(), current, adjacents, target);
      for i := 0 to |adjacents|
        invariant Explore(State(visited, order, queue), current, adjacents[i..], target) == final
        invariant source == old(source) && target == old(target)
      {
        var candidate := adjacents[i];
        assert adjacents[i..][1..] == adjacents[i + 1..];
        if candidate !in visited {
          visited := visited[candidate := Some(current)];
          order := order + [candidate];
          if Some(candidate) == target {
            return;
          }
          queue := queue + [candidate];
        }
      }
    }

    /**
     * build_tree: check the source and the target, then search breadth-first from the
     * source until the queue is empty or the target is a key.
     */
    method BuildTree(src: Word, tgt: Option<Word>) returns (outcome: Outcome)
      modifies this
      ensures outcome == Pass ==> Valid()
      ensures src !in dictionary ==> outcome == Fail(NotInDictionary(src))
      ensures src in dictionary && tgt.Some? && tgt.value !in dictionary ==> outcome == Fail(NotInDictionary(tgt.value))
      ensures outcome == Pass <==> src in dictionary && (tgt.None? || tgt.value in dictionary)
      ensures outcome.Fail? ==> unchanged(this)
      ensures outcome == Pass ==> source == Some(src) && target == tgt
      ensures outcome == Pass ==> Searched() && Snapshot() == Run(dictionary, Init(src), tgt)
      ensures outcome == Pass ==> src in visited && visited[src] == None
      ensures outcome == Pass ==> queue == [] || Reached(Snapshot(), tgt)
      ensures outcome == Pass && tgt.None? ==> queue == []
      ensures outcome == Pass && tgt == Some(src) ==> visited == map[src := None] && queue == [src]
    {
      if !ValidWord(src) {
        return Fail(NotInDictionary(src));
      }
      if tgt.Some? && !ValidWord(tgt.value) {
        return Fail(NotInDictionary(tgt.value));
      }
      InitTree(src, tgt);
      queue := [src];
      while !(queue == [] || (target.Some? && target.value in visited))
        invariant visited.Keys <= dictionary && source == Some(src) && target == tgt
        invariant Run(dictionary, Snapshot(), tgt) == Run(dictionary, Init(src), tgt)
        decreases dictionary - visited.Keys, |queue|
      {
        ghost var before := Snapshot();
        var current := queue[0];
        queue := queue[1..];
        ExploreWord(current);
        RunStep(dictionary, before, target);
      }
      SearchInv(dictionary, src, tgt, Snapshot());
      return Pass;
    }

    /**
     * find_path: follow parent pointers from the target (the given one, else the stored
     * one) back to the source, building the path front to back. A word that is not a key
     * has no parent, so its path is the word alone.
     */
    method FindPath(t: Option<Word>) returns (result: Result<seq<Word>>)
      requires Valid()
      ensures result.Err? <==> t.None? && target.None?
      ensures result.Err? ==> result.error == MissingTarget
      ensures result.Ok? ==>
                var w := if t.Some? then t.value else target.value;
                var path := result.value;
                && 0 < |path| && path[|path| - 1] == w
                && (w !in visited ==> path == [w])
                && (w in visited ==> TreePath(Snapshot(), path) && path[0] == source.value && Ladder(dictionary, path))
      ensures result.Ok? && Searched() ==>
                var w := if t.Some? then t.value else target.value;
                var path := result.value;
                && (w in visited ==>
                      forall p :: LadderFrom(dictionary, source.value, p) && p[|p| - 1] == w ==> |path| <= |p|)
                && (w !in visited && !Reached(Snapshot(), target) ==>
                      forall p :: LadderFrom(dictionary, source.value, p) ==> p[|p| - 1] != w)
    {
      var w;
      if t.Some? {
        w := t.value;
      } else if target.Some? {
        w := target.value;
      } else {
        return Err(MissingTarget);
      }
      var path: seq<Word> := [];
      var current: Option<Word> := Some(w);
      while current.Some?
        invariant Walk(Snapshot(), w, path, current)
        decreases WalkRank(Snapshot(), current)
      {
        WalkStep(dictionary, Snapshot(), target, w, path, current);
        var word := current.value;
        path := [word] + path;
        current := if word in visited then visited[word] else None;
      }
      WalkDone(dictionary, Snapshot(), target, w, path);
      if Searched() {
        if w in visited {
          forall p | LadderFrom(dictionary, source.value, p) && p[|p| - 1] == w
            ensures |path| <= |p|
          {
            ShortestPath(dictionary, source.value, target, Snapshot(), path, p);
          }
        } else if !Reached(Snapshot(), target) {
          forall p | LadderFrom(dictionary, source.value, p)
            ensures p[|p| - 1] != w
          {
            Unreachable(dictionary, source.value, target, Snapshot(), p);
          }
        }
      }
      return Ok(path);
    }
  }
}
