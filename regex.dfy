/**
  * The fragment of Python's `re` that the feature extractors use: one-character classes,
  * `k*` over a class, the word boundary `\b`, and concatenation.
  *
  * `Matches` is the meaning of a pattern as the regular-expression engine sees it (with
  * backtracking: any split point, any length of a starred run). `Scan` is the deterministic
  * left-to-right matcher the model computes with: every starred run is taken to its maximal end.
  * The lemmas below show when the two agree: a pattern in which each starred class is followed by
  * something that must begin outside that class (`Det`) has at most one match at each position,
  * and `Scan` finds it; a pattern that may also end in a starred run (`Greedy`) has a match at a
  * position exactly when `Scan` finds one, and `Scan` finds the longest.
  */
module Regex {
  import opened Wrappers
  import opened Chars

  datatype Regex =
    | One(k: Class)          // one character of the class
    | Star(k: Class)         // zero or more characters of the class
    | Boundary               // \b
    | Cat(a: Regex, b: Regex)

  /** The literal `w`, then `rest`; `fold` makes the literal case-insensitive. */
  function Lit(w: string, fold: bool, rest: Regex): Regex {
    if w == [] then rest else Cat(One(if fold then Folded(w[0]) else Is(w[0])), Lit(w[1..], fold, rest))
  }

  /** The literal `w` on its own. */
  function Text(w: string, fold: bool): Regex
    requires w != []
  {
    var first := One(if fold then Folded(w[0]) else Is(w[0]));
    if |w| == 1 then first else Cat(first, Text(w[1..], fold))
  }

  /** `k+`, then `rest`. */
  function Plus(k: Class, rest: Regex): Regex {
    Cat(One(k), Cat(Star(k), rest))
  }

  /** `k*`, then `rest`. */
  function Many(k: Class, rest: Regex): Regex {
    Cat(Star(k), rest)
  }

  predicate WordBefore(s: string, i: nat) { 0 < i <= |s| && IsWord(s[i - 1]) }
  predicate WordAt(s: string, i: nat) { i < |s| && IsWord(s[i]) }

  /** The pattern can match exactly the characters s[i..j]. */
  ghost predicate Matches(r: Regex, s: string, i: nat, j: nat)
    requires i <= j <= |s|
  {
    match r
    case One(k) => j == i + 1 && In(k, s[i])
    case Star(k) => forall m :: i <= m < j ==> In(k, s[m])
    case Boundary => i == j && WordBefore(s, i) != WordAt(s, i)
    case Cat(a, b) => exists m :: i <= m <= j && Matches(a, s, i, m) && Matches(b, s, m, j)
  }

  /** The end of the maximal run of class `k` that starts at `i`. */
  function RunEnd(k: Class, s: string, i: nat): (e: nat)
    requires i <= |s|
    ensures i <= e <= |s|
    ensures forall m :: i <= m < e ==> In(k, s[m])
    ensures e == |s| || !In(k, s[e])
    decreases |s| - i
  {
    if i < |s| && In(k, s[i]) then RunEnd(k, s, i + 1) else i
  }

  /** Possessive left-to-right matching; what it returns is always a real match. */
  function Scan(r: Regex, s: string, i: nat): (o: Option<nat>)
    requires i <= |s|
    ensures o.Some? ==> i <= o.value <= |s| && Matches(r, s, i, o.value)
  {
    match r
    case One(k) => if i < |s| && In(k, s[i]) then Some(i + 1) else None
    case Star(k) => Some(RunEnd(k, s, i))
    case Boundary => if WordBefore(s, i) != WordAt(s, i) then Some(i) else None
    case Cat(a, b) =>
      match Scan(a, s, i)
      case None => None
      case Some(m) => Scan(b, s, m)
  }

  /** A case-sensitive literal matches exactly where the text spells it out. */
  lemma {:induction false} ScanLit(w: string, rest: Regex, s: string, i: nat)
    requires i <= |s|
    ensures Scan(Lit(w, false, rest), s, i)
         == if i + |w| <= |s| && s[i..i + |w|] == w then Scan(rest, s, i + |w|) else None
    decreases |w|
  {
    if w != [] && i < |s| && s[i] == w[0] {
      ScanLit(w[1..], rest, s, i + 1);
      if i + |w| <= |s| {
        assert s[i..i + |w|] == [s[i]] + s[i + 1..i + |w|];
        assert w == [w[0]] + w[1..];
      }
    }
  }

  /** `a` spells `w` when case is ignored. */
  predicate FoldEq(a: string, w: string) {
    |a| == |w| && forall k :: 0 <= k < |w| ==> Lower(a[k]) == Lower(w[k])
  }

  /** Comparing ignoring case, character by character from the front. */
  lemma FoldEqCons(a: string, w: string)
    requires |a| == |w| > 0
    ensures FoldEq(a, w) <==> Lower(a[0]) == Lower(w[0]) && FoldEq(a[1..], w[1..])
  {
    if Lower(a[0]) == Lower(w[0]) && FoldEq(a[1..], w[1..]) {
      forall k | 0 < k < |w|
        ensures Lower(a[k]) == Lower(w[k])
      {
        assert a[1..][k - 1] == a[k] && w[1..][k - 1] == w[k];
      }
    }
  }

  /** The text at `i` spells `w` ignoring case exactly when its first character does and the rest follows. */
  lemma FoldEqAt(w: string, s: string, i: nat)
    requires w != [] && i + |w| <= |s|
    ensures FoldEq(s[i..i + |w|], w)
        <==> Lower(s[i]) == Lower(w[0]) && FoldEq(s[i + 1..i + |w|], w[1..])
  {
    var whole := s[i..i + |w|];
    FoldEqCons(whole, w);
    assert whole[1..] == s[i + 1..i + |w|];
  }

  /** A case-insensitive literal matches exactly where the text spells it out, ignoring case. */
  lemma {:induction false} ScanLitFold(w: string, rest: Regex, s: string, i: nat)
    requires i <= |s|
    ensures Scan(Lit(w, true, rest), s, i)
         == if i + |w| <= |s| && FoldEq(s[i..i + |w|], w) then Scan(rest, s, i + |w|) else None
    decreases |w|
  {
    if w != [] {
      if i + |w| <= |s| {
        FoldEqAt(w, s, i);
      }
      ScanOneThen(Folded(w[0]), Lit(w[1..], true, rest), s, i);
      if i < |s| && Lower(s[i]) == Lower(w[0]) {
        ScanLitFold(w[1..], rest, s, i + 1);
      }
    }
  }

  /** One character of `k`, then `rest`. */
  lemma ScanOneThen(k: Class, rest: Regex, s: string, i: nat)
    requires i <= |s|
    ensures Scan(Cat(One(k), rest), s, i) == if i < |s| && In(k, s[i]) then Scan(rest, s, i + 1) else None
  {
  }

  /** The same for a literal on its own. */
  lemma {:induction false} ScanTextFold(w: string, s: string, i: nat)
    requires i <= |s| && w != []
    ensures Scan(Text(w, true), s, i)
         == if i + |w| <= |s| && FoldEq(s[i..i + |w|], w) then Some(i + |w|) else None
    decreases |w|
  {
    if i + |w| <= |s| {
      FoldEqAt(w, s, i);
    }
    if |w| > 1 && i < |s| && Lower(s[i]) == Lower(w[0]) {
      ScanTextFold(w[1..], s, i + 1);
    }
  }

  lemma ScanPlus(k: Class, rest: Regex, s: string, i: nat)
    requires i <= |s|
    ensures Scan(Plus(k, rest), s, i)
         == if i < |s| && In(k, s[i]) then Scan(rest, s, RunEnd(k, s, i + 1)) else None
  {
    if i < |s| && In(k, s[i]) {
      assert Scan(Cat(Star(k), rest), s, i + 1) == Scan(rest, s, RunEnd(k, s, i + 1));
    }
  }

  /** Every character a match consumes lies outside `k`. */
  ghost predicate Avoids(r: Regex, k: Class) {
    match r
    case One(k2) => Disjoint(k2, k)
    case Star(k2) => Disjoint(k2, k)
    case Boundary => true
    case Cat(a, b) => Avoids(a, k) && Avoids(b, k)
  }

  /** Every match is non-empty and begins with a character outside `k`. */
  ghost predicate Leads(r: Regex, k: Class) {
    match r
    case One(k2) => Disjoint(k2, k)
    case Star(_) => false
    case Boundary => false
    case Cat(a, b) => Leads(a, k) || (Avoids(a, k) && Leads(b, k))
  }

  /** Each starred run is followed by something that cannot continue it, and nothing ends in a star. */
  ghost predicate Det(r: Regex) {
    match r
    case One(_) => true
    case Boundary => true
    case Star(_) => false
    case Cat(a, b) => Det(b) && (if a.Star? then Leads(b, a.k) else Det(a))
  }

  /** As `Det`, but a starred run may close the pattern. */
  ghost predicate Greedy(r: Regex) {
    match r
    case Cat(a, b) => Greedy(b) && (if a.Star? then Leads(b, a.k) else Det(a))
    case _ => true
  }

  /** Some part must consume a character, so no match is empty. */
  predicate Consumes(r: Regex) {
    match r
    case One(_) => true
    case Cat(a, b) => Consumes(a) || Consumes(b)
    case _ => false
  }

  lemma {:induction false} AvoidsMatch(r: Regex, k: Class, s: string, i: nat, j: nat)
    requires i <= j <= |s| && Avoids(r, k) && Matches(r, s, i, j)
    ensures forall q :: i <= q < j ==> !In(k, s[q])
  {
    match r
    case One(k2) =>
    case Star(k2) =>
    case Boundary =>
    case Cat(a, b) =>
      var m :| i <= m <= j && Matches(a, s, i, m) && Matches(b, s, m, j);
      AvoidsMatch(a, k, s, i, m);
      AvoidsMatch(b, k, s, m, j);
  }

  lemma {:induction false} LeadsMatch(r: Regex, k: Class, s: string, i: nat, j: nat)
    requires i <= j <= |s| && Leads(r, k) && Matches(r, s, i, j)
    ensures i < j && !In(k, s[i])
  {
    match r
    case One(k2) =>
    case Cat(a, b) =>
      var m :| i <= m <= j && Matches(a, s, i, m) && Matches(b, s, m, j);
      if Leads(a, k) {
        LeadsMatch(a, k, s, i, m);
      } else {
        LeadsMatch(b, k, s, m, j);
        AvoidsMatch(a, k, s, i, m);
        if i < m {
          assert !In(k, s[i]);
        }
      }
  }

  lemma {:induction false} ConsumesNonEmpty(r: Regex, s: string, i: nat, j: nat)
    requires i <= j <= |s| && Consumes(r) && Matches(r, s, i, j)
    ensures i < j
  {
    match r
    case One(_) =>
    case Cat(a, b) =>
      var m :| i <= m <= j && Matches(a, s, i, m) && Matches(b, s, m, j);
      if Consumes(a) {
        ConsumesNonEmpty(a, s, i, m);
      } else {
        ConsumesNonEmpty(b, s, m, j);
      }
  }

  /** A run of `k` that stops at a character outside `k` is the maximal run. */
  lemma RunEndUnique(k: Class, s: string, i: nat, m: nat)
    requires i <= m <= |s|
    requires forall q :: i <= q < m ==> In(k, s[q])
    requires m == |s| || !In(k, s[m])
    ensures m == RunEnd(k, s, i)
  {
  }

  /** A deterministic pattern has at most one match at each position, and `Scan` returns it. */
  lemma {:induction false} DetUnique(r: Regex, s: string, i: nat, j: nat)
    requires i <= j <= |s| && Det(r) && Matches(r, s, i, j)
    ensures Scan(r, s, i) == Some(j)
  {
    match r
    case One(_) =>
    case Boundary =>
    case Cat(a, b) =>
      var m :| i <= m <= j && Matches(a, s, i, m) && Matches(b, s, m, j);
      if a.Star? {
        LeadsMatch(b, a.k, s, m, j);
        RunEndUnique(a.k, s, i, m);
      } else {
        DetUnique(a, s, i, m);
      }
      DetUnique(b, s, m, j);
  }

  /** A greedy pattern: whenever some match starts at `i`, `Scan` finds one, and the longest. */
  lemma {:induction false} GreedyLongest(r: Regex, s: string, i: nat, j: nat)
    requires i <= j <= |s| && Greedy(r) && Matches(r, s, i, j)
    ensures Scan(r, s, i).Some? && j <= Scan(r, s, i).value
  {
    match r
    case One(_) =>
    case Boundary =>
    case Star(k) =>
    case Cat(a, b) =>
      var m :| i <= m <= j && Matches(a, s, i, m) && Matches(b, s, m, j);
      if a.Star? {
        LeadsMatch(b, a.k, s, m, j);
        RunEndUnique(a.k, s, i, m);
      } else {
        DetUnique(a, s, i, m);
      }
      GreedyLongest(b, s, m, j);
  }

  /** Where `Scan` fails, a greedy pattern has no match at all. */
  lemma NoMatchAt(r: Regex, s: string, i: nat)
    requires i <= |s| && Greedy(r) && Scan(r, s, i).None?
    ensures forall j :: i <= j <= |s| ==> !Matches(r, s, i, j)
  {
    forall j | i <= j <= |s| && Matches(r, s, i, j)
      ensures false
    {
      GreedyLongest(r, s, i, j);
    }
  }

  /** Some match of `r` starts at or after position `i`. */
  ghost predicate MatchFrom(r: Regex, s: string, i: nat) {
    exists p, j :: i <= p <= j <= |s| && Matches(r, s, p, j)
  }

  /** `re.search` from position `i`: true exactly when some match starts at or after `i`. */
  function Search(r: Regex, s: string, i: nat): (found: bool)
    requires i <= |s| && Greedy(r)
    ensures found <==> MatchFrom(r, s, i)
    decreases |s| - i
  {
    if Scan(r, s, i).Some? then
      var j := Scan(r, s, i).value;
      assert Matches(r, s, i, j);
      true
    else
      SearchStep(r, s, i);
      i < |s| && Search(r, s, i + 1)
  }

  /** With no match at `i`, a match at or after `i` is a match after `i`. */
  lemma SearchStep(r: Regex, s: string, i: nat)
    requires i <= |s| && Greedy(r) && Scan(r, s, i).None?
    ensures MatchFrom(r, s, i) <==> i < |s| && MatchFrom(r, s, i + 1)
  {
    NoMatchAt(r, s, i);
    if MatchFrom(r, s, i) {
      var p, j :| i <= p <= j <= |s| && Matches(r, s, p, j);
      assert p != i;
    }
    if i < |s| && MatchFrom(r, s, i + 1) {
      var p, j :| i + 1 <= p <= j <= |s| && Matches(r, s, p, j);
      assert i <= p;
    }
  }

  /**
    * The matches of `pattern.findall(s, i)`, which still sees `s[i - 1]` for `\b`: scan left to
    * right; after a match resume at its end, otherwise one position later. A pattern that
    * consumes never matches the empty remainder at |s|.
    */
  function CountFrom(r: Regex, s: string, i: nat): (n: nat)
    requires i <= |s| && Consumes(r)
    ensures n <= |s| - i
    decreases |s| - i
  {
    if i == |s| then 0
    else
      match Scan(r, s, i)
      case Some(j) =>
        ConsumesNonEmpty(r, s, i, j);
        1 + CountFrom(r, s, j)
      case None => CountFrom(r, s, i + 1)
  }

  /** A match at `i` counts once, and counting resumes at its end. */
  lemma CountFromMatch(r: Regex, s: string, i: nat, j: nat)
    requires i < |s| && Consumes(r) && Scan(r, s, i) == Some(j)
    ensures CountFrom(r, s, i) == 1 + CountFrom(r, s, j)
  {
  }

  /** Counting finds something exactly when `re.search` does: some match starts at or after `i`. */
  lemma {:induction false} CountPositiveIffMatch(r: Regex, s: string, i: nat)
    requires i <= |s| && Greedy(r) && Consumes(r)
    ensures CountFrom(r, s, i) > 0 <==> MatchFrom(r, s, i)
    decreases |s| - i
  {
    if i == |s| {
      if MatchFrom(r, s, i) {
        var p, j :| i <= p <= j <= |s| && Matches(r, s, p, j);
        ConsumesNonEmpty(r, s, p, j);
      }
    } else {
      match Scan(r, s, i)
      case Some(j) =>
        assert Matches(r, s, i, j);
      case None =>
        SearchStep(r, s, i);
        CountPositiveIffMatch(r, s, i + 1);
    }
  }

  /** A deterministic pattern is also greedy. */
  lemma {:induction false} DetIsGreedy(r: Regex)
    requires Det(r)
    ensures Greedy(r)
  {
    match r
    case One(_) =>
    case Boundary =>
    case Cat(a, b) =>
      DetIsGreedy(b);
  }

  /** Number of non-overlapping matches in the whole string (`str.count` with a pattern). */
  function Count(r: Regex, s: string): (n: nat)
    requires Consumes(r)
    ensures n <= |s|
  {
    CountFrom(r, s, 0)
  }

  /** A one-character pattern counts the characters of its class. */
  lemma {:induction false} CountOfOne(k: Class, s: string, i: nat)
    requires i <= |s|
    ensures CountFrom(One(k), s, i) == Occurrences(s[i..], k)
    decreases |s| - i
  {
    if i < |s| {
      OccurrencesStep(s, i, k);
      CountOfOne(k, s, i + 1);
    }
  }

  /** Number of positions at or after `i` where a match begins (overlaps allowed). */
  function Starts(r: Regex, s: string, i: nat): (n: nat)
    requires i <= |s|
    ensures n <= |s| - i
    decreases |s| - i
  {
    if i == |s| then 0 else (if Scan(r, s, i).Some? then 1 else 0) + Starts(r, s, i + 1)
  }

  /** The pattern opens with one character of `k` and consumes no other character of `k`. */
  ghost predicate OpensWith(r: Regex, k: Class) {
    r.Cat? && r.a == One(k) && Avoids(r.b, k)
  }

  lemma StartsSkip(r: Regex, s: string, a: nat, b: nat)
    requires a <= b <= |s|
    requires forall q :: a <= q < b ==> Scan(r, s, q).None?
    ensures Starts(r, s, a) == Starts(r, s, b)
    decreases b - a
  {
    if a < b {
      StartsSkip(r, s, a + 1, b);
    }
  }

  /**
    * For a pattern that opens with a `k` character and consumes no other, matches cannot overlap,
    * so skipping past each match loses none: the non-overlapping count is the number of starts.
    */
  lemma {:induction false} NonOverlappingIsStarts(r: Regex, k: Class, s: string, i: nat)
    requires i <= |s| && OpensWith(r, k)
    ensures CountFrom(r, s, i) == Starts(r, s, i)
    decreases |s| - i
  {
    if i < |s| {
      match Scan(r, s, i)
      case None =>
        NonOverlappingIsStarts(r, k, s, i + 1);
      case Some(j) =>
        var m :| i <= m <= j && Matches(r.a, s, i, m) && Matches(r.b, s, m, j);
        AvoidsMatch(r.b, k, s, m, j);
        StartsSkip(r, s, i + 1, j);
        NonOverlappingIsStarts(r, k, s, j);
    }
  }

  /** Positions where nothing matches do not change the count. */
  lemma CountSkip(r: Regex, s: string, a: nat, b: nat)
    requires a <= b <= |s| && Consumes(r)
    requires forall q :: a <= q < b ==> Scan(r, s, q).None?
    ensures CountFrom(r, s, a) == CountFrom(r, s, b)
    decreases b - a
  {
    if a < b {
      CountSkip(r, s, a + 1, b);
    }
  }

  /** A pattern that opens with one character of `k` does not match where no such character stands. */
  lemma NoOpenerNoScan(r: Regex, k: Class, s: string, p: nat)
    requires p <= |s| && r.Cat? && r.a == One(k) && (p == |s| || !In(k, s[p]))
    ensures Scan(r, s, p).None?
  {
  }

  /** The fewest characters any match consumes. */
  function MinLen(r: Regex): nat {
    match r
    case One(_) => 1
    case Star(_) => 0
    case Boundary => 0
    case Cat(a, b) => MinLen(a) + MinLen(b)
  }

  lemma {:induction false} MatchesMinLen(r: Regex, s: string, i: nat, j: nat)
    requires i <= j <= |s| && Matches(r, s, i, j)
    ensures j - i >= MinLen(r)
  {
    match r
    case One(_) =>
    case Star(_) =>
    case Boundary =>
    case Cat(a, b) =>
      var m :| i <= m <= j && Matches(a, s, i, m) && Matches(b, s, m, j);
      MatchesMinLen(a, s, i, m);
      MatchesMinLen(b, s, m, j);
  }

  /** Non-overlapping matches of at least `MinLen(r)` characters each fit in the text. */
  lemma {:induction false} CountWithinLength(r: Regex, s: string, i: nat)
    requires i <= |s| && Consumes(r)
    ensures CountFrom(r, s, i) * MinLen(r) <= |s| - i
    decreases |s| - i
  {
    if i < |s| {
      var o := Scan(r, s, i);
      if o.None? {
        assert CountFrom(r, s, i) == CountFrom(r, s, i + 1);
        CountWithinLength(r, s, i + 1);
      } else {
        var j := o.value;
        MatchesMinLen(r, s, i, j);
        ConsumesNonEmpty(r, s, i, j);
        CountWithinLength(r, s, j);
        assert CountFrom(r, s, i) == CountFrom(r, s, j) + 1;
        MulStep(CountFrom(r, s, j), MinLen(r), |s| - j, j - i);
      }
    }
  }

  /** `n` pieces of size `l` in `room`, and one more in `extra`, fit in `room + extra`. */
  lemma MulStep(n: nat, l: nat, room: nat, extra: nat)
    requires n * l <= room && l <= extra
    ensures (n + 1) * l <= room + extra
  {
    assert (n + 1) * l == n * l + l;
  }

  /** A literal is deterministic and matches exactly its own length. */
  lemma {:induction false} TextShape(w: string, fold: bool)
    requires w != []
    ensures Det(Text(w, fold)) && MinLen(Text(w, fold)) == |w| && Consumes(Text(w, fold))
    decreases |w|
  {
    if |w| > 1 {
      TextShape(w[1..], fold);
    }
  }

  /** A literal in front of `rest` keeps `rest`'s determinism and adds its length. */
  lemma {:induction false} LitShape(w: string, fold: bool, rest: Regex)
    ensures Det(Lit(w, fold, rest)) == Det(rest)
    ensures MinLen(Lit(w, fold, rest)) == |w| + MinLen(rest)
    decreases |w|
  {
    if w != [] {
      LitShape(w[1..], fold, rest);
    }
  }
}
