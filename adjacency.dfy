/**
 * The adjacency generator of the word-ladder solver, as specification functions.
 *
 * Each generator is defined the way the solver enumerates it: positions left to
 * right, and at each position the letters 'a'..'z' in order, keeping a candidate
 * only when the dictionary holds it. The lemmas characterise each generator by an
 * independent description of the edit it performs, and state the order of the
 * substitution results.
 */
module Adjacency {
  import opened Words

  /** The word with the character at position i replaced by c. */
  function Replace(w: Word, i: nat, c: char): (r: Word)
    requires i < |w|
    ensures |r| == |w| && r[i] == c
  {
    w[i := c]
  }

  /** The word with the character at position i removed. */
  function Delete(w: Word, i: nat): (r: Word)
    requires i < |w|
    ensures |r| + 1 == |w|
  {
    w[..i] + w[i + 1..]
  }

  /** The word with c inserted before position i (after the last character when i == |w|). */
  function Insert(w: Word, i: nat, c: char): (r: Word)
    requires i <= |w|
    ensures |r| == |w| + 1 && r[i] == c
  {
    w[..i] + [c] + w[i..]
  }

  /** The candidate as a one-element list when the dictionary holds it, else nothing. */
  function Keep(dict: set<Word>, candidate: Word): (r: seq<Word>)
  {
    if candidate in dict then [candidate] else []
  }

  // ---------------------------------------------------------------- substitution

  /** Substitutions at position i, trying the first n letters and skipping the letter already there. */
  function SwitchAt(dict: set<Word>, w: Word, i: nat, n: nat): (r: seq<Word>)
    requires i < |w| && n <= AlphabetSize
  {
    if n == 0 then []
    else
      var c := Letter(n - 1);
      SwitchAt(dict, w, i, n - 1) + (if c == w[i] then [] else Keep(dict, Replace(w, i, c)))
  }

  /** Substitutions at the positions before m. */
  function SwitchUpTo(dict: set<Word>, w: Word, m: nat): (r: seq<Word>)
    requires m <= |w|
  {
    if m == 0 then [] else SwitchUpTo(dict, w, m - 1) + SwitchAt(dict, w, m - 1, AlphabetSize)
  }

  function SwitchOne(dict: set<Word>, w: Word): (r: seq<Word>)
  {
    SwitchUpTo(dict, w, |w|)
  }

  // ---------------------------------------------------------------- deletion

  /** Deletions at the positions before m. */
  function DelUpTo(dict: set<Word>, w: Word, m: nat): (r: seq<Word>)
    requires m <= |w|
  {
    if m == 0 then [] else DelUpTo(dict, w, m - 1) + Keep(dict, Delete(w, m - 1))
  }

  function DelOne(dict: set<Word>, w: Word): (r: seq<Word>)
  {
    DelUpTo(dict, w, |w|)
  }

  // ---------------------------------------------------------------- insertion

  /** Insertions before position i of each of the first n letters. */
  function AddAt(dict: set<Word>, w: Word, i: nat, n: nat): (r: seq<Word>)
    requires i <= |w| && n <= AlphabetSize
  {
    if n == 0 then [] else AddAt(dict, w, i, n - 1) + Keep(dict, Insert(w, i, Letter(n - 1)))
  }

  /** Insertions at the positions before m (positions range over 0..|w|). */
  function AddUpTo(dict: set<Word>, w: Word, m: nat): (r: seq<Word>)
    requires m <= |w| + 1
  {
    if m == 0 then [] else AddUpTo(dict, w, m - 1) + AddAt(dict, w, m - 1, AlphabetSize)
  }

  function AddOne(dict: set<Word>, w: Word): (r: seq<Word>)
  {
    AddUpTo(dict, w, |w| + 1)
  }

  /** All neighbours: substitutions, then deletions, then insertions; duplicates are kept. */
  function Adjacent(dict: set<Word>, w: Word): (r: seq<Word>)
  {
    SwitchOne(dict, w) + DelOne(dict, w) + AddOne(dict, w)
  }

  // ---------------------------------------------------------------- the edits, described independently

  /** x has the length of w and differs from it at position i and nowhere else. */
  ghost predicate DiffersOnlyAt(w: Word, x: Word, i: nat)
  {
    |x| == |w| && i < |w| && forall j :: 0 <= j < |w| ==> (x[j] != w[j] <==> j == i)
  }

  /** x is w with exactly one character changed to a letter. */
  ghost predicate IsSubstitution(w: Word, x: Word)
  {
    exists i :: 0 <= i < |x| && IsLetter(x[i]) && DiffersOnlyAt(w, x, i)
  }

  /** x is w with exactly one character removed. */
  ghost predicate IsDeletion(w: Word, x: Word)
  {
    |x| + 1 == |w| && exists i :: 0 <= i < |w| && x[..i] == w[..i] && x[i..] == w[i + 1..]
  }

  /** x is w with one letter inserted, at one of the positions 0..|w|. */
  ghost predicate IsInsertion(w: Word, x: Word)
  {
    |x| == |w| + 1 && exists i :: 0 <= i <= |w| && IsLetter(x[i]) && x[..i] == w[..i] && x[i + 1..] == w[i..]
  }

  ghost predicate OneEdit(w: Word, x: Word)
  {
    IsSubstitution(w, x) || IsDeletion(w, x) || IsInsertion(w, x)
  }

  /** The position a substitution changed. */
  ghost function ChangedAt(w: Word, x: Word): (i: nat)
    requires IsSubstitution(w, x)
    ensures DiffersOnlyAt(w, x, i) && IsLetter(x[i])
  {
    var i :| 0 <= i < |x| && IsLetter(x[i]) && DiffersOnlyAt(w, x, i); i
  }

  // ---------------------------------------------------------------- membership of the generators

  /** A substitution result names the position and the letter that produced it. */
  lemma {:induction false} SwitchAtSource(dict: set<Word>, w: Word, i: nat, n: nat, x: Word) returns (k: nat)
    requires i < |w| && n <= AlphabetSize && x in SwitchAt(dict, w, i, n)
    ensures x in dict && k < n && Letter(k) != w[i] && x == Replace(w, i, Letter(k))
  {
    if x in SwitchAt(dict, w, i, n - 1) {
      k := SwitchAtSource(dict, w, i, n - 1, x);
    } else {
      k := n - 1;
    }
  }

  /** Every dictionary word one substitution away, at position i by one of the first n letters, is generated. */
  lemma {:induction false} SwitchAtHas(dict: set<Word>, w: Word, i: nat, n: nat, k: nat)
    requires i < |w| && k < n <= AlphabetSize && Letter(k) != w[i] && Replace(w, i, Letter(k)) in dict
    ensures Replace(w, i, Letter(k)) in SwitchAt(dict, w, i, n)
  {
    if k < n - 1 {
      SwitchAtHas(dict, w, i, n - 1, k);
    }
  }

  lemma {:induction false} SwitchUpToSource(dict: set<Word>, w: Word, m: nat, x: Word) returns (i: nat, k: nat)
    requires m <= |w| && x in SwitchUpTo(dict, w, m)
    ensures x in dict && i < m && k < AlphabetSize && Letter(k) != w[i] && x == Replace(w, i, Letter(k))
  {
    if x in SwitchUpTo(dict, w, m - 1) {
      i, k := SwitchUpToSource(dict, w, m - 1, x);
    } else {
      i := m - 1;
      k := SwitchAtSource(dict, w, i, AlphabetSize, x);
    }
  }

  lemma {:induction false} SwitchUpToHas(dict: set<Word>, w: Word, m: nat, i: nat, k: nat)
    requires i < m <= |w| && k < AlphabetSize && Letter(k) != w[i] && Replace(w, i, Letter(k)) in dict
    ensures Replace(w, i, Letter(k)) in SwitchUpTo(dict, w, m)
  {
    if i < m - 1 {
      SwitchUpToHas(dict, w, m - 1, i, k);
    } else {
      SwitchAtHas(dict, w, i, AlphabetSize, k);
    }
  }

  /** A replacement by a different letter is a substitution at that position. */
  lemma ReplaceIsSubstitution(w: Word, i: nat, c: char)
    requires i < |w| && IsLetter(c) && c != w[i]
    ensures IsSubstitution(w, Replace(w, i, c)) && ChangedAt(w, Replace(w, i, c)) == i
  {
    var x := Replace(w, i, c);
    assert DiffersOnlyAt(w, x, i);
    var j := ChangedAt(w, x);
    if j != i {
      assert x[i] != w[i];
    }
  }

  /** Every substitution result is a dictionary word of the same length that differs from the
      input at exactly one position, and every such word is a substitution result. */
  lemma SwitchOneSpec(dict: set<Word>, w: Word, x: Word)
    ensures x in SwitchOne(dict, w) <==> x in dict && IsSubstitution(w, x)
    ensures x in SwitchOne(dict, w) ==> |x| == |w| && x != w
  {
    if x in SwitchOne(dict, w) {
      var i, k := SwitchUpToSource(dict, w, |w|, x);
      ReplaceIsSubstitution(w, i, Letter(k));
      assert x[i] != w[i];
    }
    if x in dict && IsSubstitution(w, x) {
      var i := ChangedAt(w, x);
      var k := LetterIndex(x[i]);
      assert x == Replace(w, i, Letter(k));
      SwitchUpToHas(dict, w, |w|, i, k);
    }
  }

  lemma {:induction false} DelUpToMembers(dict: set<Word>, w: Word, m: nat, x: Word)
    requires m <= |w|
    ensures x in DelUpTo(dict, w, m) <==> x in dict && exists i :: 0 <= i < m && x == Delete(w, i)
  {
    if m > 0 {
      DelUpToMembers(dict, w, m - 1, x);
    }
  }

  /** Every deletion result is a dictionary word that is the input with one position removed,
      and every such word is a deletion result. */
  lemma DelOneSpec(dict: set<Word>, w: Word, x: Word)
    ensures x in DelOne(dict, w) <==> x in dict && IsDeletion(w, x)
    ensures x in DelOne(dict, w) ==> |x| == |w| - 1
  {
    DelUpToMembers(dict, w, |w|, x);
    if x in DelOne(dict, w) {
      var i :| 0 <= i < |w| && x == Delete(w, i);
      assert x[..i] == w[..i] && x[i..] == w[i + 1..];
    }
    if x in dict && IsDeletion(w, x) {
      var i :| 0 <= i < |w| && x[..i] == w[..i] && x[i..] == w[i + 1..];
      assert x == x[..i] + x[i..];
      assert x == Delete(w, i);
    }
  }

  /** An insertion result names the position and the letter that produced it. */
  lemma {:induction false} AddAtSource(dict: set<Word>, w: Word, i: nat, n: nat, x: Word) returns (k: nat)
    requires i <= |w| && n <= AlphabetSize && x in AddAt(dict, w, i, n)
    ensures x in dict && k < n && x == Insert(w, i, Letter(k))
  {
    if x in AddAt(dict, w, i, n - 1) {
      k := AddAtSource(dict, w, i, n - 1, x);
    } else {
      k := n - 1;
    }
  }

  /** Every dictionary word that inserts one of the first n letters before position i is generated. */
  lemma {:induction false} AddAtHas(dict: set<Word>, w: Word, i: nat, n: nat, k: nat)
    requires i <= |w| && k < n <= AlphabetSize && Insert(w, i, Letter(k)) in dict
    ensures Insert(w, i, Letter(k)) in AddAt(dict, w, i, n)
  {
    if k < n - 1 {
      AddAtHas(dict, w, i, n - 1, k);
    }
  }

  lemma {:induction false} AddUpToSource(dict: set<Word>, w: Word, m: nat, x: Word) returns (i: nat, k: nat)
    requires m <= |w| + 1 && x in AddUpTo(dict, w, m)
    ensures x in dict && i < m && k < AlphabetSize && x == Insert(w, i, Letter(k))
  {
    if x in AddUpTo(dict, w, m - 1) {
      i, k := AddUpToSource(dict, w, m - 1, x);
    } else {
      i := m - 1;
      k := AddAtSource(dict, w, i, AlphabetSize, x);
    }
  }

  lemma {:induction false} AddUpToHas(dict: set<Word>, w: Word, m: nat, i: nat, k: nat)
    requires i < m <= |w| + 1 && k < AlphabetSize && Insert(w, i, Letter(k)) in dict
    ensures Insert(w, i, Letter(k)) in AddUpTo(dict, w, m)
  {
    if i < m - 1 {
      AddUpToHas(dict, w, m - 1, i, k);
    } else {
      AddAtHas(dict, w, i, AlphabetSize, k);
    }
  }

  /** Inserting a letter gives an insertion in the sense of IsInsertion. */
  lemma InsertIsInsertion(w: Word, i: nat, c: char)
    requires i <= |w| && IsLetter(c)
    ensures IsInsertion(w, Insert(w, i, c))
  {
    var x := Insert(w, i, c);
    assert x[i] == c;
    assert x[..i] == w[..i] && x[i + 1..] == w[i..];
  }

  lemma InsertionIsInsert(w: Word, x: Word) returns (i: nat, k: nat)
    requires IsInsertion(w, x)
    ensures i <= |w| && k < AlphabetSize && x == Insert(w, i, Letter(k))
  {
    i :| 0 <= i <= |w| && IsLetter(x[i]) && x[..i] == w[..i] && x[i + 1..] == w[i..];
    k := LetterIndex(x[i]);
    assert x == x[..i] + [x[i]] + x[i + 1..];
  }

  /** Every insertion result is a dictionary word that is the input with one letter inserted
      at one of the positions 0..|w|, and every such word is an insertion result. */
  lemma AddOneSpec(dict: set<Word>, w: Word, x: Word)
    ensures x in AddOne(dict, w) <==> x in dict && IsInsertion(w, x)
    ensures x in AddOne(dict, w) ==> |x| == |w| + 1
  {
    if x in AddOne(dict, w) {
      var i, k := AddUpToSource(dict, w, |w| + 1, x);
      InsertIsInsertion(w, i, Letter(k));
    }
    if x in dict && IsInsertion(w, x) {
      var i, k := InsertionIsInsert(w, x);
      AddUpToHas(dict, w, |w| + 1, i, k);
    }
  }

  /** The neighbours are exactly the dictionary words one edit away. */
  lemma AdjacentSpec(dict: set<Word>, w: Word, x: Word)
    ensures x in Adjacent(dict, w) <==> x in dict && OneEdit(w, x)
  {
    SwitchOneSpec(dict, w, x);
    DelOneSpec(dict, w, x);
    AddOneSpec(dict, w, x);
  }

  /** Every neighbour is a dictionary word. */
  lemma AdjacentInDict(dict: set<Word>, w: Word)
    ensures forall x :: x in Adjacent(dict, w) ==> x in dict
  {
    forall x | x in Adjacent(dict, w) {
      AdjacentSpec(dict, w, x);
    }
  }

  /** No word is its own neighbour. */
  lemma NoSelfLoop(dict: set<Word>, w: Word)
    ensures w !in Adjacent(dict, w)
  {
    SwitchOneSpec(dict, w, w);
    DelOneSpec(dict, w, w);
    AddOneSpec(dict, w, w);
  }

  // ---------------------------------------------------------------- order of the substitutions

  /** The (position, letter) of substitution x comes strictly before that of substitution y. */
  ghost predicate SubstBefore(w: Word, x: Word, y: Word)
    requires IsSubstitution(w, x) && IsSubstitution(w, y)
  {
    var i, j := ChangedAt(w, x), ChangedAt(w, y);
    i < j || (i == j && x[i] < y[j])
  }

  /** r lists substitutions of w in strictly increasing (position, letter) order. */
  ghost predicate InSubstOrder(w: Word, r: seq<Word>)
  {
    && (forall p :: 0 <= p < |r| ==> IsSubstitution(w, r[p]))
    && (forall p, q :: 0 <= p < q < |r| ==> SubstBefore(w, r[p], r[q]))
  }

  lemma ConcatInSubstOrder(w: Word, a: seq<Word>, b: seq<Word>)
    requires InSubstOrder(w, a) && InSubstOrder(w, b)
    requires forall p, q :: 0 <= p < |a| && 0 <= q < |b| ==> SubstBefore(w, a[p], b[q])
    ensures InSubstOrder(w, a + b)
  {
    var r := a + b;
    forall p, q | 0 <= p < q < |r|
      ensures SubstBefore(w, r[p], r[q])
    {
      if q < |a| {
      } else if p < |a| {
        assert r[q] == b[q - |a|];
      } else {
        assert r[p] == b[p - |a|] && r[q] == b[q - |a|];
      }
    }
  }

  lemma {:induction false} SwitchAtOrdered(dict: set<Word>, w: Word, i: nat, n: nat)
    requires i < |w| && n <= AlphabetSize
    ensures InSubstOrder(w, SwitchAt(dict, w, i, n))
    ensures forall p :: 0 <= p < |SwitchAt(dict, w, i, n)| ==>
              ChangedAt(w, SwitchAt(dict, w, i, n)[p]) == i && (SwitchAt(dict, w, i, n)[p][i] as int) < ('a' as int) + n
  {
    if n > 0 {
      SwitchAtOrdered(dict, w, i, n - 1);
      var c := Letter(n - 1);
      var tail := if c == w[i] then [] else Keep(dict, Replace(w, i, c));
      if c != w[i] {
        ReplaceIsSubstitution(w, i, c);
      }
      ConcatInSubstOrder(w, SwitchAt(dict, w, i, n - 1), tail);
    }
  }

  lemma {:induction false} SwitchUpToOrdered(dict: set<Word>, w: Word, m: nat)
    requires m <= |w|
    ensures InSubstOrder(w, SwitchUpTo(dict, w, m))
    ensures forall p :: 0 <= p < |SwitchUpTo(dict, w, m)| ==> ChangedAt(w, SwitchUpTo(dict, w, m)[p]) < m
  {
    if m > 0 {
      SwitchUpToOrdered(dict, w, m - 1);
      SwitchAtOrdered(dict, w, m - 1, AlphabetSize);
      ConcatInSubstOrder(w, SwitchUpTo(dict, w, m - 1), SwitchAt(dict, w, m - 1, AlphabetSize));
    }
  }

  /** The substitutions come in (position, letter 'a'..'z') order; so none is repeated. */
  lemma SwitchOneOrdered(dict: set<Word>, w: Word)
    ensures InSubstOrder(w, SwitchOne(dict, w))
  {
    SwitchUpToOrdered(dict, w, |w|);
  }
}
