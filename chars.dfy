/**
  * Character classes shared by the feature extractors and the data-cleaning rules.
  * Python's `\d`, `\w`, `\s`, `str.isdigit`, `str.strip` and `re.IGNORECASE` are taken over ASCII.
  */
module Chars {

  predicate IsDigit(c: char) { '0' <= c <= '9' }

  predicate IsLetter(c: char) { 'a' <= c <= 'z' || 'A' <= c <= 'Z' }

  /** `\w`: letters, digits and the underscore. */
  predicate IsWord(c: char) { IsLetter(c) || IsDigit(c) || c == '_' }

  /**
    * `\s` of a str pattern, and what `str.strip` removes: space, tab, line feed, vertical tab,
    * form feed, carriage return, and the four separators 28 … 31.
    */
  predicate IsSpace(c: char) { c == ' ' || '\t' <= c <= '\r' || 28 as char <= c <= 31 as char }

  /** ASCII lower-casing, the folding used for case-insensitive matching. */
  function Lower(c: char): (d: char)
    ensures IsLetter(c) ==> 'a' <= d <= 'z'
    ensures !('A' <= c <= 'Z') ==> d == c
  {
    if 'A' <= c <= 'Z' then (c as int + 32) as char else c
  }

  /** A set of characters, as one position of a pattern matches it. */
  datatype Class =
    | Digit
    | Word
    | Space
    | Is(c: char)           // exactly this character
    | Folded(c: char)       // this character, ignoring ASCII case
    | AnyOf(cs: seq<char>)  // a bracket class such as ["']

  predicate In(k: Class, c: char) {
    match k
    case Digit => IsDigit(c)
    case Word => IsWord(c)
    case Space => IsSpace(c)
    case Is(d) => c == d
    case Folded(d) => Lower(c) == Lower(d)
    case AnyOf(cs) => c in cs
  }

  /** No character belongs to both classes. */
  ghost predicate Disjoint(k1: Class, k2: Class) {
    forall c :: !(In(k1, c) && In(k2, c))
  }

  /** Number of characters of `s` that belong to `k` (Python's `str.count` for one character). */
  function Occurrences(s: string, k: Class): (n: nat)
    ensures n <= |s|
    ensures n == 0 <==> forall i :: 0 <= i < |s| ==> !In(k, s[i])
  {
    if s == [] then 0
    else (if In(k, s[0]) then 1 else 0) + Occurrences(s[1..], k)
  }

  lemma {:induction false} OccurrencesAppend(a: string, b: string, k: Class)
    ensures Occurrences(a + b, k) == Occurrences(a, k) + Occurrences(b, k)
  {
    if a == [] {
      assert a + b == b;
    } else {
      assert (a + b)[1..] == a[1..] + b;
      OccurrencesAppend(a[1..], b, k);
    }
  }

  /** Counting one exact character is counting it in the multiset of the string. */
  lemma {:induction false} OccurrencesIsMultiplicity(s: string, c: char)
    ensures Occurrences(s, Is(c)) == multiset(s)[c]
  {
    if s != [] {
      assert s == [s[0]] + s[1..];
      assert multiset(s) == multiset{s[0]} + multiset(s[1..]);
      OccurrencesIsMultiplicity(s[1..], c);
    }
  }

  /** Counting a bracket class of two characters is counting each of them. */
  lemma {:induction false} OccurrencesOfPair(s: string, c: char, d: char)
    requires c != d
    ensures Occurrences(s, AnyOf([c, d])) == Occurrences(s, Is(c)) + Occurrences(s, Is(d))
  {
    if s != [] {
      OccurrencesOfPair(s[1..], c, d);
    }
  }

  /** Counting a suffix one character shorter. */
  lemma OccurrencesStep(s: string, i: nat, k: Class)
    requires i < |s|
    ensures Occurrences(s[i..], k) == (if In(k, s[i]) then 1 else 0) + Occurrences(s[i + 1..], k)
  {
    assert s[i..][1..] == s[i + 1..];
  }
}
