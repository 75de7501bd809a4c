# Word chains in Dafny

A model of `WordChainer` from `word_chains.rb`, a word-ladder solver. The solver
is built over a fixed dictionary and turns one word into another one edit at a
time. An edit replaces, deletes or inserts a single letter, and every
intermediate word must be in the dictionary.

- **Adjacency generator** (`adjacent_words` and its three helpers). Given a word
  it lists the dictionary words one edit away, in a fixed order:
  - substitutions, by position and then by letter `a`..`z`, skipping the letter
    already there;
  - then deletions, by position;
  - then insertions, at positions `0..len`, by letter.

  Duplicates are kept.
- **Breadth-first tree builder** (`build_tree`, `init_tree`, `explore_word`).
  It checks that the source, and a given target, are dictionary words. It then
  runs a FIFO search that fills the predecessor map `@visited_words`: each word
  is mapped to the word it was reached from, and the source to `nil`. The
  search stops once the target is a key. `explore_word` returns as soon as it
  records the target.
- **Path reconstruction** (`find_path`). It follows parent pointers back from
  the target and prepends each word to the path.

The project has four modules:

- `Words` (`words.dfy`): words as strings, `Option` for Ruby's `nil`-or-value,
  and the letters `'a'..'z'`.
- `Adjacency` (`adjacency.dfy`): each generator as a function that enumerates
  candidates exactly as the loops do. Two groups of lemmas sit beside them:
  - each generator is characterised by an independent description of its edit
    (`IsSubstitution`, `IsDeletion`, `IsInsertion`);
  - the order of the substitution results is stated.
- `Search` (`search.dfy`): a pure search state and the loops as functions.
  - The state holds the predecessor map, the insertion order of its keys that
    a Ruby `Hash` keeps, and the queue.
  - `Explore` is one `explore_word` call and `Run` is the loop of
    `build_tree`.
  - The invariant `Inv` says two things. The map is a parent-pointer tree whose
    every edge is an adjacency. The queue is the most recently discovered words.
  - The lemmas show that `Explore` and `Run` keep `Inv`, and what follows from
    it.
- `WordChains` (`word_chains.dfy`): the class `WordChainer`.
  - It has a constant dictionary and the mutable fields `visited`, `queue`,
    `source` and `target`. A ghost `order` mirrors the Hash's key order.
  - Each method is imperative, with the loops of the Ruby code. Each is proved
    equal to the specification function in `Adjacency` or `Search`, or is
    specified directly.
  - `valid_word?` is `ValidWord`, membership in the dictionary.
- `Shortest` (`shortest.dfy`): why the breadth-first search finds shortest
  ladders.
  - `Depth` is a key's distance from the source along parent pointers.
  - A finished search is layered. Keys enter the map in non-decreasing depth.
    Every explored word has all its neighbours as keys at most one level
    deeper. Every key is at most one level below the word being explored.
  - So any ladder from the source to a key is at least as long as the key's
    parent-pointer path (`ShortestPath`).
  - When the queue ran dry without reaching the target, every word on any
    ladder from the source is a key (`Unreachable`).
  - `FindPath` states both results for a chainer whose last `BuildTree`
    succeeded. The path to a key is a shortest ladder. A non-key, after a
    search that did not reach its target, has no ladder from the source.

Behaviour kept as the code has it:

- `find_path` on a word that is not a key of the map returns the one-element
  path `[word]`. Indexing a Ruby Hash with a missing key gives `nil`, which
  ends the walk. `FindPath` keeps this behaviour; it does not report
  "not found".
- The source is checked before the target.
- When the source equals the target, the source is already a key and the loop
  never runs: the map is `{source => nil}` and the queue is `[source]`.

Failures are values: `build_tree`'s and `find_path`'s `raise` become
`Fail(NotInDictionary(word))` and `Err(MissingTarget)`.

## Model

| member | source | states |
|---|---|---|
| Words.LetterIndex | word_chains.rb:31 | every character in `'a'..'z'` is enumerated by the range, at the position of its code |
| Adjacency.SwitchAtSource | word_chains.rb:31-36 | every substitution produced at one position names the letter that produced it; that letter differs from the one already there, and the word is in the dictionary |
| Adjacency.SwitchAtHas | word_chains.rb:31-36 | every dictionary word obtained by changing that position to a different letter is produced |
| Adjacency.SwitchUpToSource | word_chains.rb:30-37 | every substitution produced over the first `m` positions names its position and letter |
| Adjacency.SwitchUpToHas | word_chains.rb:30-37 | every dictionary word obtained by a substitution at one of the first `m` positions is produced |
| Adjacency.ReplaceIsSubstitution | word_chains.rb:34-35 | replacing one character by a different letter yields a word that differs from the input exactly there |
| Adjacency.SwitchOneSpec | word_chains.rb:28-40 | a word is a substitution result iff it is in the dictionary and differs from the input at exactly one position, where it holds a letter; results keep the length and never equal the input |
| Adjacency.SwitchAtOrdered | word_chains.rb:31-37 | at one position, results come in increasing letter order, all changed at that position |
| Adjacency.SwitchUpToOrdered | word_chains.rb:30-38 | over the first `m` positions, results come in increasing (position, letter) order |
| Adjacency.ConcatInSubstOrder | word_chains.rb:29-39 | appending later substitutions to earlier ones keeps (position, letter) order |
| Adjacency.SwitchOneOrdered | word_chains.rb:28-40 | all substitution results come in strictly increasing (position, letter) order, so none repeats |
| Adjacency.DelUpToMembers | word_chains.rb:44-48 | a word is produced by deleting at one of the first `m` positions iff it is in the dictionary and is such a deletion |
| Adjacency.DelOneSpec | word_chains.rb:42-50 | a word is a deletion result iff it is in the dictionary and is the input with exactly one position removed; results are one shorter |
| Adjacency.AddAtSource | word_chains.rb:55-58 | every insertion produced at one position names the letter inserted, and is in the dictionary |
| Adjacency.AddAtHas | word_chains.rb:55-58 | every dictionary word obtained by inserting a letter at that position is produced |
| Adjacency.AddUpToSource | word_chains.rb:54-59 | every insertion produced over the first `m` positions names its position and letter |
| Adjacency.AddUpToHas | word_chains.rb:54-59 | every dictionary word obtained by inserting a letter at one of the first `m` positions is produced |
| Adjacency.InsertIsInsertion | word_chains.rb:56-57 | inserting a letter at a position in `0..len` is an insertion in the independent sense |
| Adjacency.InsertionIsInsert | word_chains.rb:56-57 | every insertion in the independent sense is some letter inserted at some position in `0..len` |
| Adjacency.AddOneSpec | word_chains.rb:52-62 | a word is an insertion result iff it is in the dictionary and is the input with one letter inserted at a position in `0..len`; results are one longer |
| Adjacency.AdjacentSpec | word_chains.rb:22-26 | a word is a neighbour iff it is a dictionary word one substitution, deletion or insertion away |
| Adjacency.AdjacentInDict | word_chains.rb:22-26 | every neighbour is a dictionary word |
| Adjacency.NoSelfLoop | word_chains.rb:22-62 | no word is its own neighbour |
| Search.ExploreFrame | word_chains.rb:104-117 | explore_word only adds keys, each one a candidate, never overwrites a key, and queues nothing when it adds no key |
| Search.Run | word_chains.rb:71-73 | the loop terminates, with the queue empty or the target a key |
| Search.ParentOf | word_chains.rb:99-109 | under the invariant, only the source maps to `nil`; every other key's parent is an earlier key, and the key is one of its parent's neighbours |
| Search.QueueFacts | word_chains.rb:71-72 | under the invariant, the queue has no duplicates, holds only keys, and holds the target only when the target is the source |
| Search.InitInv | word_chains.rb:69-70 | the state after init_tree (word_chains.rb:98-102) and setting the queue to `[source]` satisfies the invariant |
| Search.DiscoverTree | word_chains.rb:107-109 | recording a new neighbour under a key keeps the map a tree of adjacencies in insertion order |
| Search.DiscoverQueue | word_chains.rb:109-115 | recording a new word, and queueing it unless it is the target, keeps the queue the tail of the discovered words |
| Search.DiscoverInv | word_chains.rb:107-115 | one candidate step of explore_word keeps the invariant |
| Search.ExploreInv | word_chains.rb:104-117 | explore_word on a key, before the target is reached, keeps the invariant |
| Search.ExploreQueue | word_chains.rb:107-115 | explore_word only appends to the queue; each appended word was not a key before, is now a key whose parent is the explored word, and is not the target |
| Search.DequeueInv | word_chains.rb:72 | the queue's front word is a key, and removing it keeps the invariant |
| Search.RunStep | word_chains.rb:71-73 | one turn of the loop keeps the keys in the dictionary, shrinks the termination measure, and leaves the rest of the loop to run from the new state |
| Search.RunInv | word_chains.rb:71-73 | the whole loop keeps the invariant |
| Search.RunKeepsKeys | word_chains.rb:71-73 | the whole loop never overwrites a key |
| Search.SearchInv | word_chains.rb:64-74 | a search from a dictionary word ends in a state that satisfies the invariant, rooted at the source |
| Search.TreePathIsLadder | word_chains.rb:80-86 | a parent-pointer path starts at the source, is a ladder of dictionary words, and repeats no word |
| Search.WalkStep | word_chains.rb:82-85 | one step of the find_path walk keeps the walk invariant and moves to an earlier key, or stops |
| Search.IndexIncreasing | word_chains.rb:82-85 | along a walk whose consecutive keys were inserted in increasing order, no key repeats |
| Search.WalkDone | word_chains.rb:80-86 | when the walk stops, the path ends with the word. It is `[word]` for a non-key; otherwise it is the parent-pointer path from the source, a word ladder |
| Shortest.DepthKept | word_chains.rb:107-109 | a key's distance from the source is unchanged by growth that never overwrites a parent pointer |
| Shortest.DepthsKept | word_chains.rb:107-109 | every old key keeps its distance from the source when keys are only added |
| Shortest.GrowDepths | word_chains.rb:109 | recording a new word under a key keeps old distances and puts the new word one level below its parent |
| Shortest.GrowMonotone | word_chains.rb:107-115 | recording a neighbour of the word being explored, at the current level, keeps keys in non-decreasing depth order and every key at most one level below it |
| Shortest.GrowClosed | word_chains.rb:107-115 | words already explored stay explored (all neighbours keys at most one level deeper) when keys are only appended |
| Shortest.GrowExploring | word_chains.rb:107-115 | one discovery during explore_word keeps the layering, and the new word is one level below the explored word |
| Shortest.KeptShallow | word_chains.rb:107-109 | a key at most one level below the current word stays so as the map grows |
| Shortest.ExploreLayers | word_chains.rb:104-117 | explore_word keeps the layering; unless it reaches the target, the explored word ends with all its neighbours as keys at most one level deeper, and the queue is the tail after it |
| Shortest.InitLevelled | word_chains.rb:69-70 | the state after init_tree (word_chains.rb:98-102) and setting the queue to `[source]` is layered |
| Shortest.LevelledLayers | word_chains.rb:71-72 | under the layering, the front of a non-empty queue is the first unexplored key: every earlier key is explored, and every later key is no shallower than it and at most one level deeper |
| Shortest.ExploredLevelled | word_chains.rb:71-73 | once a word is fully explored, the next turn of the loop starts from a layered state |
| Shortest.StoppedLayers | word_chains.rb:71-73 | when the target is recorded in the middle of explore_word, the words before the explored one are explored and no later key is shallower |
| Shortest.RunLayersStep | word_chains.rb:71-73 | one turn of the loop keeps the state layered, or stops with the target reached and the words before it explored |
| Shortest.RunLayers | word_chains.rb:71-73 | the whole loop ends layered; if the target was not reached, every key is explored |
| Shortest.SearchLayers | word_chains.rb:64-74 | a search from a dictionary word ends layered, and fully explored unless the target is a key |
| Shortest.ShallowStep | word_chains.rb:71-73 | a neighbour of a key shallower than the exploration frontier is a key at most one level deeper |
| Shortest.LadderDepths | word_chains.rb:71-73 | along a short enough ladder from the source, the word at step `i` is a key at distance at most `i` |
| Shortest.LayersShortest | word_chains.rb:71-73 | a key's distance from the source is at most the length of any ladder from the source to it |
| Shortest.TreePathDepth | word_chains.rb:80-86 | the parent-pointer path to a key is one word longer than the key's distance from the source |
| Shortest.ShortestPath | word_chains.rb:64-87 | after a search, the path find_path builds to a key is no longer than any ladder from the source to that key |
| Shortest.Unreachable | word_chains.rb:64-74 | after a search that emptied its queue without reaching the target, every word of any ladder from the source is a key, and the target is on none |
| WordChains.WordChainer.constructor | word_chains.rb:9-12 | a new chainer has the given dictionary and an empty predecessor map, and satisfies the invariant |
| WordChains.WordChainer.AdjacentWordsSwitchOne | word_chains.rb:28-40 | the nested loops return exactly the substitution list `SwitchOne` |
| WordChains.WordChainer.AdjacentWordsDelOne | word_chains.rb:42-50 | the loop returns exactly the deletion list `DelOne` |
| WordChains.WordChainer.AdjacentWordsAddOne | word_chains.rb:52-62 | the nested loops return exactly the insertion list `AddOne` |
| WordChains.WordChainer.AdjacentWords | word_chains.rb:22-26 | the result is the substitutions, then the deletions, then the insertions |
| WordChains.WordChainer.InitTree | word_chains.rb:98-102 | the map becomes `{source => nil}`; the source and target are stored; the queue is untouched |
| WordChains.WordChainer.ExploreWord | word_chains.rb:104-117 | the loop with its early return leaves exactly the state `Explore` describes |
| WordChains.WordChainer.BuildTree | word_chains.rb:64-74 | it fails on a source, or a given target, that is not a word, checking the source first, and then changes nothing. Otherwise it reaches the state `Run` describes: the invariant holds, rooted at the source, and either the target is a key or the queue is empty (always empty with no target). With the source as target, nothing is explored |
| WordChains.WordChainer.FindPath | word_chains.rb:76-87 | it fails exactly when no target is given and none is stored. Otherwise the path ends with the target. For a key it is the parent-pointer path from the source, a word ladder; for a non-key it is `[target]`. After a successful build_tree, the path to a key is a shortest ladder from the source; a non-key, when the search did not reach its target, is on no ladder from the source |

## Left out

- Reading the dictionary file (`init_dictionary`, word_chains.rb:90-92) is file I/O. The dictionary is a `set<string>` given to the constructor.
- The constants `SYSTEM_DICTIONARY` and `DEFAULT_DICTIONARY`, and the constructors `system_dictionary` and `default_dictionary`, only name file paths (word_chains.rb:6-7, 14-20).
- The command-line block (word_chains.rb:121-127) parses `ARGV` and prints.
- The text of the `raise` messages is left out. Failures are the values `NotInDictionary(word)` and `MissingTarget`.
- Ruby `Set` and `Hash` performance, such as `keys.include?` being linear, is left out. Only membership and insertion order are modelled.
- Before the first `build_tree`, `@queue` is `nil` in Ruby. Here it is the empty sequence; nothing reads it before `build_tree` sets it.
- The Hash's key order is a ghost field, `order`. It is used to state the tree, queue and layering invariants, and to prove that the parent-pointer walks terminate.
- Strings are sequences of characters. Ruby's encodings and multi-byte characters are not modelled.
