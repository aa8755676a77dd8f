/**
  * `normalize_label` of src/models/train_xss.py: the training labels of the XSS data set are
  * brought to 0 (clean) and 1 (malicious). A numeric column keeps "nonzero is 1"; a text column
  * goes through a fixed vocabulary, or, when some value is outside it and the column holds
  * exactly two distinct values, the more frequent value becomes 0 and the other 1.
  */
module LabelNormalizer {
  import opened Wrappers
  import opened Chars

  /** A label column: numeric (a missing entry is `None`) or text (after `astype(str)`). */
  datatype LabelColumn = Numeric(numbers: seq<Option<real>>) | Textual(texts: seq<string>)

  /** The ValueError listing the sorted distinct values when no rule applies. */
  datatype LabelError = UnhandledLabelValues(values: seq<string>)

  /** `int(x)` on a float: truncation toward zero. */
  function Trunc(x: real): (n: int)
    ensures x >= 0.0 ==> n == x.Floor
    ensures x < 0.0 ==> n == -((-x).Floor)
    ensures n != 0 <==> x >= 1.0 || x <= -1.0
  {
    if x >= 0.0 then x.Floor else -((-x).Floor)
  }

  /** `fillna(0).astype(int)`, then 1 for nonzero and 0 for zero. */
  function NumericLabel(v: Option<real>): (b: int)
    ensures b == 0 || b == 1
    ensures b == 1 <==> v.Some? && (v.value >= 1.0 || v.value <= -1.0)
  {
    var filled := if v.Some? then v.value else 0.0;
    if Trunc(filled) != 0 then 1 else 0
  }

  function LowerAll(s: string): (t: string)
    ensures |t| == |s| && forall i :: 0 <= i < |s| ==> t[i] == Lower(s[i])
  {
    if s == [] then [] else [Lower(s[0])] + LowerAll(s[1..])
  }

  /** `str.strip()`: the longest slice that neither starts nor ends with whitespace. */
  function Strip(s: string): (t: string)
    ensures exists a, b :: 0 <= a <= b <= |s| && t == s[a..b]
                           && (forall i :: 0 <= i < a ==> IsSpace(s[i]))
                           && (forall i :: b <= i < |s| ==> IsSpace(s[i]))
    ensures t != [] ==> !IsSpace(t[0]) && !IsSpace(t[|t| - 1])
  {
    var a := LeadingSpace(s, 0);
    var b := TrailingEnd(s, a, |s|);
    s[a..b]
  }

  /** The first position at or after `i` that does not hold whitespace. */
  function LeadingSpace(s: string, i: nat): (a: nat)
    requires i <= |s|
    ensures i <= a <= |s| && (a < |s| ==> !IsSpace(s[a]))
    ensures forall k :: i <= k < a ==> IsSpace(s[k])
    decreases |s| - i
  {
    if i < |s| && IsSpace(s[i]) then LeadingSpace(s, i + 1) else i
  }

  /** The end of `s[a..j]` once trailing whitespace is dropped. */
  function TrailingEnd(s: string, a: nat, j: nat): (b: nat)
    requires a <= j <= |s|
    ensures a <= b <= j && (b > a ==> !IsSpace(s[b - 1]))
    ensures forall k :: b <= k < j ==> IsSpace(s[k])
    decreases j
  {
    if j > a && IsSpace(s[j - 1]) then TrailingEnd(s, a, j - 1) else j
  }

  /** `.str.lower().str.strip()` */
  function Canon(s: string): string {
    Strip(LowerAll(s))
  }

  /** The fixed vocabulary of known label words. */
  const Vocabulary: map<string, int> := map[
    "malicious" := 1, "xss" := 1, "attack" := 1, "1" := 1, "true" := 1, "yes" := 1,
    "clean" := 0, "benign" := 0, "0" := 0, "false" := 0, "no" := 0, "legit" := 0]

  lemma VocabularyIsBinary()
    ensures forall w :: w in Vocabulary ==> Vocabulary[w] == 0 || Vocabulary[w] == 1
  {
  }

  /** Python's `<` on strings: lexicographic by code point. */
  predicate StrLess(a: string, b: string) {
    if a == [] then b != []
    else if b == [] then false
    else if a[0] != b[0] then a[0] < b[0]
    else StrLess(a[1..], b[1..])
  }

  lemma {:induction false} StrLessIrreflexive(a: string)
    ensures !StrLess(a, a)
  {
    if a != [] {
      StrLessIrreflexive(a[1..]);
    }
  }

  lemma {:induction false} StrLessTotal(a: string, b: string)
    requires a != b
    ensures StrLess(a, b) || StrLess(b, a)
  {
    if a != [] && b != [] && a[0] == b[0] {
      assert a == [a[0]] + a[1..] && b == [b[0]] + b[1..];
      StrLessTotal(a[1..], b[1..]);
    }
  }

  lemma {:induction false} StrLessTransitive(a: string, b: string, c: string)
    requires StrLess(a, b) && StrLess(b, c)
    ensures StrLess(a, c)
  {
    if a != [] && b != [] && c != [] && a[0] == b[0] && b[0] == c[0] {
      StrLessTransitive(a[1..], b[1..], c[1..]);
    }
  }

  /** Strictly increasing, hence also free of repeats. */
  ghost predicate SortedStrict(xs: seq<string>) {
    forall i, j :: 0 <= i < j < |xs| ==> StrLess(xs[i], xs[j])
  }

  /** A strictly increasing list holds each value once. */
  lemma SortedStrictDistinct(xs: seq<string>)
    requires SortedStrict(xs)
    ensures forall i, j :: 0 <= i < j < |xs| ==> xs[i] != xs[j]
  {
    forall i, j | 0 <= i < j < |xs|
      ensures xs[i] != xs[j]
    {
      StrLessIrreflexive(xs[i]);
    }
  }

  /** `xs` with `x` put in its place; nothing happens if it is already there. */
  function Insert(x: string, xs: seq<string>): (r: seq<string>)
    requires SortedStrict(xs)
    ensures SortedStrict(r)
    ensures forall v :: v in r <==> v == x || v in xs
    decreases |xs|
  {
    if xs == [] then [x]
    else if x == xs[0] then xs
    else if StrLess(x, xs[0]) then
      forall j | 0 < j < |xs| ensures StrLess(x, xs[j]) {
        StrLessTransitive(x, xs[0], xs[j]);
      }
      [x] + xs
    else
      StrLessTotal(x, xs[0]);
      var rest := Insert(x, xs[1..]);
      assert forall v :: v in xs <==> v == xs[0] || v in xs[1..];
      forall j | 0 <= j < |rest| ensures StrLess(xs[0], rest[j]) {
        assert rest[j] in rest;
        if rest[j] != x {
          var k :| 0 <= k < |xs[1..]| && xs[1..][k] == rest[j];
          assert xs[k + 1] == rest[j];
        }
      }
      [xs[0]] + rest
  }

  /** `sorted(s.unique())` */
  function SortedUnique(xs: seq<string>): (r: seq<string>)
    ensures SortedStrict(r)
    ensures forall v :: v in r <==> v in xs
  {
    if xs == [] then []
    else
      assert forall v :: v in xs <==> v == xs[|xs| - 1] || v in xs[..|xs| - 1];
      Insert(xs[|xs| - 1], SortedUnique(xs[..|xs| - 1]))
  }

  /** The distinct values of `xs` in order of first appearance. */
  function Unique(xs: seq<string>): (r: seq<string>)
    ensures forall v :: v in r <==> v in xs
    ensures forall i, j :: 0 <= i < j < |r| ==> r[i] != r[j]
    ensures xs != [] ==> r != [] && r[0] == xs[0]
  {
    if xs == [] then []
    else
      var rest := Unique(xs[..|xs| - 1]);
      assert forall v :: v in xs <==> v == xs[|xs| - 1] || v in xs[..|xs| - 1];
      if xs[|xs| - 1] in rest then rest else rest + [xs[|xs| - 1]]
  }

  /**
    * `counts.idxmax()` for a column with two distinct values: the more frequent one, and on a
    * tie the one that appears first.
    */
  function MostFrequent(xs: seq<string>): (most: string)
    requires |Unique(xs)| == 2
    ensures most in xs
    ensures forall v :: v in xs ==> multiset(xs)[v] <= multiset(xs)[most]
  {
    var u := Unique(xs);
    assert forall v :: v in xs ==> v == u[0] || v == u[1];
    if multiset(xs)[u[0]] >= multiset(xs)[u[1]] then u[0] else u[1]
  }

  /** `normalize_label` */
  function NormalizeLabel(col: LabelColumn): (r: Result<seq<int>, LabelError>)
    ensures r.Ok? ==> |r.value| == Rows(col)
    ensures r.Ok? ==> forall i :: 0 <= i < |r.value| ==> r.value[i] == 0 || r.value[i] == 1
  {
    match col
    case Numeric(vs) => Ok(seq(|vs|, i requires 0 <= i < |vs| => NumericLabel(vs[i])))
    case Textual(ts) =>
      var s := CanonAll(ts);
      if AllKnown(s) then
        VocabularyIsBinary();
        Ok(seq(|s|, i requires 0 <= i < |s| => Vocabulary[s[i]]))
      else if |Unique(s)| == 2 then
        Ok(Marks(s, MostFrequent(s)))
      else
        Err(UnhandledLabelValues(SortedUnique(s)))
  }

  /** No normalised value is missing from the vocabulary (`not mapped.isnull().any()`). */
  predicate AllKnown(s: seq<string>) {
    forall i :: 0 <= i < |s| ==> s[i] in Vocabulary
  }

  /** `s.apply(lambda x: 0 if x == most else 1)` */
  function Marks(s: seq<string>, most: string): (out: seq<int>)
    ensures |out| == |s|
    ensures forall i :: 0 <= i < |s| ==> (out[i] == 0 <==> s[i] == most) && (out[i] == 0 || out[i] == 1)
  {
    seq(|s|, i requires 0 <= i < |s| => if s[i] == most then 0 else 1)
  }

  /** The number of entries of the column. */
  function Rows(col: LabelColumn): nat {
    match col
    case Numeric(vs) => |vs|
    case Textual(ts) => |ts|
  }

  /** The normalised text labels. */
  function CanonAll(ts: seq<string>): (s: seq<string>)
    ensures |s| == |ts| && forall i :: 0 <= i < |ts| ==> s[i] == Canon(ts[i])
  {
    seq(|ts|, i requires 0 <= i < |ts| => Canon(ts[i]))
  }

  /** Numeric labels: missing is 0, and a value is 1 exactly when it truncates to a nonzero int. */
  lemma NumericLabels(vs: seq<Option<real>>, i: nat)
    requires i < |vs|
    ensures NormalizeLabel(Numeric(vs)).Ok?
    ensures NormalizeLabel(Numeric(vs)).value[i] == 1
        <==> vs[i].Some? && (vs[i].value >= 1.0 || vs[i].value <= -1.0)
  {
  }

  /** When every normalised word is known, each row gets the vocabulary's value for it. */
  lemma KnownWords(ts: seq<string>, i: nat)
    requires i < |ts| && AllKnown(CanonAll(ts))
    ensures NormalizeLabel(Textual(ts)).Ok?
    ensures NormalizeLabel(Textual(ts)).value[i] == Vocabulary[Canon(ts[i])]
  {
  }

  /**
    * With an unknown word and exactly two distinct values, every row (known words included) is 0
    * exactly when it holds the more frequent value.
    */
  lemma TwoValueFallback(ts: seq<string>, i: nat)
    requires i < |ts|
    requires !AllKnown(CanonAll(ts))
    requires |Unique(CanonAll(ts))| == 2
    ensures NormalizeLabel(Textual(ts)).Ok?
    ensures NormalizeLabel(Textual(ts)).value[i] == 0 <==> Canon(ts[i]) == MostFrequent(CanonAll(ts))
  {
    FallbackOutput(ts);
  }

  /** With an unknown word and not exactly two distinct values, the sorted distinct values are reported. */
  lemma UnhandledValues(ts: seq<string>)
    requires !AllKnown(CanonAll(ts))
    requires |Unique(CanonAll(ts))| != 2
    ensures NormalizeLabel(Textual(ts)).Err?
    ensures var e := NormalizeLabel(Textual(ts)).error.values;
            SortedStrict(e) && forall v :: v in e <==> exists k :: 0 <= k < |ts| && v == Canon(ts[k])
    ensures var e := NormalizeLabel(Textual(ts)).error.values;
            forall i, j :: 0 <= i < j < |e| ==> e[i] != e[j]
  {
    SortedStrictDistinct(NormalizeLabel(Textual(ts)).error.values);
    var s := CanonAll(ts);
    assert forall v :: v in s <==> exists k :: 0 <= k < |ts| && v == Canon(ts[k]);
  }

  /** How many entries of `bs` equal `b`. */
  function CountOf(bs: seq<int>, b: int): nat {
    multiset(bs)[b]
  }

  /** In the two-value fallback the label 0 goes to the majority: there are at least as many 0s as 1s. */
  lemma FallbackMajorityIsZero(ts: seq<string>)
    requires !AllKnown(CanonAll(ts))
    requires |Unique(CanonAll(ts))| == 2
    ensures NormalizeLabel(Textual(ts)).Ok?
    ensures CountOf(NormalizeLabel(Textual(ts)).value, 1) <= CountOf(NormalizeLabel(Textual(ts)).value, 0)
  {
    var s := CanonAll(ts);
    var most := MostFrequent(s);
    FallbackOutput(ts);
    var other := OtherValue(s);
    assert forall i :: 0 <= i < |s| ==> s[i] in s;
    MarkCounts(s, most, other);
  }

  /** The fallback marks the normalised column against its more frequent value. */
  lemma FallbackOutput(ts: seq<string>)
    requires !AllKnown(CanonAll(ts))
    requires |Unique(CanonAll(ts))| == 2
    ensures NormalizeLabel(Textual(ts)) == Ok(Marks(CanonAll(ts), MostFrequent(CanonAll(ts))))
  {
  }

  /** The value of a two-valued column that is not the more frequent one. */
  lemma OtherValue(s: seq<string>) returns (other: string)
    requires |Unique(s)| == 2
    ensures other in s && other != MostFrequent(s)
    ensures forall v :: v in s ==> v == MostFrequent(s) || v == other
  {
    var u := Unique(s);
    other := if u[0] == MostFrequent(s) then u[1] else u[0];
    assert u[0] in s && u[1] in s;
  }

  /** Marking `most` with 0 and `other` with 1 counts each value's occurrences. */
  lemma {:induction false} MarkCounts(s: seq<string>, most: string, other: string)
    requires most != other && forall i :: 0 <= i < |s| ==> s[i] == most || s[i] == other
    ensures CountOf(Marks(s, most), 0) == multiset(s)[most]
    ensures CountOf(Marks(s, most), 1) == multiset(s)[other]
  {
    if s != [] {
      var init, last := s[..|s| - 1], s[|s| - 1];
      MarkCounts(init, most, other);
      MarksSnoc(s, most);
      var b := if last == most then 0 else 1;
      var marks := Marks(init, most);
      CountSnoc(marks, b, 0);
      CountSnoc(marks, b, 1);
      assert s == init + [last];
      CountSnoc(init, last, most);
      CountSnoc(init, last, other);
    }
  }

  /** Appending one entry adds one to its own count and nothing to any other. */
  lemma CountSnoc<T>(xs: seq<T>, x: T, v: T)
    ensures multiset(xs + [x])[v] == multiset(xs)[v] + if x == v then 1 else 0
  {
    assert multiset(xs + [x]) == multiset(xs) + multiset{x};
  }

  /** Marking a column marks its prefix, then its last entry. */
  lemma MarksSnoc(s: seq<string>, most: string)
    requires s != []
    ensures Marks(s, most) == Marks(s[..|s| - 1], most) + [if s[|s| - 1] == most then 0 else 1]
  {
  }
}
