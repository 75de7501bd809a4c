/** Words, optional values and the letters 'a'..'z' that the generators try. */
module Words {

  /** A word is an opaque string; the dictionary decides which strings are words. */
  type Word = string

  /** Ruby's nil-or-value, as used for the parent of a visited word and for an absent target. */
  datatype Option<+T> = None | Some(value: T)

  /** The number of letters in Ruby's range 'a'..'z'. */
  const AlphabetSize: nat := 26

  predicate IsLetter(c: char)
  {
    'a' <= c <= 'z'
  }

  /** The k-th letter of the range 'a'..'z', in the order the range enumerates them. */
  function Letter(k: nat): (c: char)
    requires k < AlphabetSize
    ensures IsLetter(c)
  {
    (('a' as int) + k) as char
  }

  /** Every letter is enumerated by the range, at exactly the position of its code. */
  lemma LetterIndex(c: char) returns (k: nat)
    requires IsLetter(c)
    ensures k < AlphabetSize && Letter(k) == c
  {
    k := (c as int) - ('a' as int);
  }
}
