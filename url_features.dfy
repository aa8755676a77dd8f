/**
  * The URL feature extractor of src/features/url_features.py: one URL string becomes the
  * six numbers the phishing classifier is trained on. A row keeps the original `url` beside
  * the new features; the auxiliary `tld` column is not part of this model.
  */
module UrlFeatures {
  import opened Wrappers
  import opened Chars
  import opened Regex

  /** IP_RE: `://\d+\.\d+\.\d+\.\d+` (octet ranges are not checked). */
  const IpPattern: Regex := Lit("://", false, DigitGroups(4))

  /** `n` runs of digits separated by dots: `\d+(\.\d+){n-1}`. */
  function DigitGroups(n: nat): Regex
    requires n >= 1
  {
    if n == 1 then Cat(One(Digit), Star(Digit))
    else Plus(Digit, Lit(".", false, DigitGroups(n - 1)))
  }

  /** One row of the frame after `extract_basic_features`. */
  datatype UrlRow = UrlRow(
    url: string,
    len: nat,
    hasIp: nat,
    digits: nat,
    subdirs: nat,
    dashes: nat,
    hasAt: nat)

  lemma IpPatternIsGreedy()
    ensures Greedy(IpPattern)
  {
  }

  /** `has_ip`: 1 exactly when `re.search(IP_RE, u)` finds a match somewhere in the string. */
  function HasIp(u: string): (b: nat)
    ensures b <= 1
    ensures b == 1 <==> MatchFrom(IpPattern, u, 0)
  {
    IpPatternIsGreedy();
    if Search(IpPattern, u, 0) then 1 else 0
  }

  /** `num_digits`: the characters for which `isdigit` holds. */
  function NumDigits(u: string): (n: nat)
    ensures n <= |u|
    ensures n == DigitMultiplicity(multiset(u), "0123456789")
  {
    DigitsByMultiset(u);
    Occurrences(u, Digit)
  }

  /** `count_subdirs`: `u.count('/')`. */
  function CountSubdirs(u: string): (n: nat)
    ensures n == multiset(u)['/']
  {
    OccurrencesIsMultiplicity(u, '/');
    Occurrences(u, Is('/'))
  }

  /** `count_dashes`: `u.count('-')`. */
  function CountDashes(u: string): (n: nat)
    ensures n == multiset(u)['-']
  {
    OccurrencesIsMultiplicity(u, '-');
    Occurrences(u, Is('-'))
  }

  /** `has_at`: `int('@' in u)`. */
  function HasAt(u: string): (b: nat)
    ensures b <= 1
    ensures b == 1 <==> multiset(u)['@'] > 0
  {
    if '@' in u then 1 else 0
  }

  /** `extract_basic_features` for one row: the url is kept and the six features are added. */
  function ExtractBasicFeatures(u: string): (r: UrlRow)
    ensures r.url == u && r.len == |u|
    ensures r.hasIp <= 1 && (r.hasIp == 1 <==> MatchFrom(IpPattern, u, 0))
    ensures r.hasAt <= 1 && (r.hasAt == 1 <==> '@' in u)
    ensures r.subdirs == multiset(u)['/'] && r.dashes == multiset(u)['-']
    ensures r.digits == DigitMultiplicity(multiset(u), "0123456789")
    ensures r.digits + r.subdirs + r.dashes + r.hasAt <= r.len
  {
    CountedClassesFit(u);
    OccurrencesIsMultiplicity(u, '@');
    UrlRow(u, |u|, HasIp(u), NumDigits(u), CountSubdirs(u), CountDashes(u), HasAt(u))
  }

  /** How many elements of `m` are among the characters of `ds`. */
  function DigitMultiplicity(m: multiset<char>, ds: string): nat {
    if ds == [] then 0 else m[ds[0]] + DigitMultiplicity(m, ds[1..])
  }

  lemma {:induction false} DigitMultiplicityAdds(m1: multiset<char>, m2: multiset<char>, ds: string)
    ensures DigitMultiplicity(m1 + m2, ds) == DigitMultiplicity(m1, ds) + DigitMultiplicity(m2, ds)
  {
    if ds != [] {
      DigitMultiplicityAdds(m1, m2, ds[1..]);
    }
  }

  lemma {:induction false} DigitMultiplicityOfNone(ds: string)
    ensures DigitMultiplicity(multiset{}, ds) == 0
  {
    if ds != [] {
      DigitMultiplicityOfNone(ds[1..]);
    }
  }

  lemma {:induction false} DigitMultiplicityOfOne(c: char, ds: string)
    requires forall i, j :: 0 <= i < j < |ds| ==> ds[i] != ds[j]
    ensures DigitMultiplicity(multiset{c}, ds) == if c in ds then 1 else 0
  {
    if ds != [] {
      DigitMultiplicityOfOne(c, ds[1..]);
      assert c in ds <==> c == ds[0] || c in ds[1..];
    }
  }

  /** The digit count is the sum of the multiplicities of '0' … '9'. */
  lemma {:induction false} DigitsByMultiset(u: string)
    ensures Occurrences(u, Digit) == DigitMultiplicity(multiset(u), "0123456789")
  {
    var ds := "0123456789";
    if u == [] {
      DigitMultiplicityOfNone(ds);
    } else {
      assert u == [u[0]] + u[1..];
      assert multiset(u) == multiset{u[0]} + multiset(u[1..]);
      DigitMultiplicityAdds(multiset{u[0]}, multiset(u[1..]), ds);
      DigitMultiplicityOfOne(u[0], ds);
      assert forall i :: 0 <= i < |ds| ==> ds[i] == ('0' as int + i) as char;
      assert IsDigit(u[0]) ==> u[0] == ds[u[0] as int - '0' as int];
      assert u[0] in ds <==> IsDigit(u[0]);
      DigitsByMultiset(u[1..]);
    }
  }

  /** Digits, '/', '-' and '@' are disjoint classes, so their counts together fit in the length. */
  lemma {:induction false} CountedClassesFit(u: string)
    ensures Occurrences(u, Digit) + Occurrences(u, Is('/')) + Occurrences(u, Is('-'))
            + Occurrences(u, Is('@')) <= |u|
  {
    if u != [] {
      CountedClassesFit(u[1..]);
    }
  }

  /** The empty string gives length 0 and every feature 0. */
  lemma EmptyUrl()
    ensures ExtractBasicFeatures("") == UrlRow("", 0, 0, 0, 0, 0, 0)
  {
    assert !MatchFrom(IpPattern, "", 0);
  }

  /** A dotted quad right after `://` is found, with trailing text after it. */
  lemma IpAfterScheme(s: string)
    requires s == "http://1.2.3.4/path"
    ensures HasIp(s) == 1
  {
    assert s[..7] == "http://";
    assert s[4..7] == "://";
    QuadAt(s, 4);
    assert Matches(IpPattern, s, 4, 14);
  }

  /**
    * A phishing-style URL, `http://192.168.1.1/login@verify-account.com`, given as its scheme and
    * host followed by its path: an IP host of multi-digit groups and an `@` in the path. Both
    * the "contains IP" and the "contains @" rule fire on it.
    */
  lemma IpAndAtInUrl(s: string, host: string, path: string)
    requires host == "http://192.168.1.1" && path == "/login@verify-account.com" && s == host + path
    ensures ExtractBasicFeatures(s).hasIp == 1 && ExtractBasicFeatures(s).hasAt == 1
  {
    IpHost(s, host, path);
    assert s[24] == path[6] == '@';
    assert '@' in s;
  }

  lemma IpHost(s: string, host: string, path: string)
    requires host == "http://192.168.1.1" && path == "/login@verify-account.com" && s == host + path
    ensures MatchFrom(IpPattern, s, 0)
  {
    assert s[18] == path[0];
    WideQuadAt(s, 4);
    assert Matches(IpPattern, s, 4, 18);
  }

  /** `://`, two three-digit groups and two one-digit groups: an IP match of fourteen characters. */
  lemma WideQuadAt(s: string, p: nat)
    requires p + 14 < |s| && s[p] == ':' && s[p + 1] == '/' && s[p + 2] == '/' && !IsDigit(s[p + 14])
    requires IsDigit(s[p + 3]) && IsDigit(s[p + 4]) && IsDigit(s[p + 5]) && s[p + 6] == '.'
    requires IsDigit(s[p + 7]) && IsDigit(s[p + 8]) && IsDigit(s[p + 9]) && s[p + 10] == '.'
    requires IsDigit(s[p + 11]) && s[p + 12] == '.' && IsDigit(s[p + 13])
    ensures Scan(IpPattern, s, p) == Some(p + 14)
  {
    assert s[p..p + 3] == "://";
    ScanLit("://", DigitGroups(4), s, p);
    ThreeDigitsDot(s, p + 3, 4);
    ThreeDigitsDot(s, p + 7, 3);
    DigitDot(s, p + 11, 2);
    LastDigit(s, p + 13);
  }

  /** Three digits and a dot open a digit group that the next group follows. */
  lemma ThreeDigitsDot(s: string, i: nat, n: nat)
    requires n >= 2 && i + 3 < |s| && IsDigit(s[i]) && IsDigit(s[i + 1]) && IsDigit(s[i + 2]) && s[i + 3] == '.'
    ensures Scan(DigitGroups(n), s, i) == Scan(DigitGroups(n - 1), s, i + 4)
  {
    RunEndUnique(Digit, s, i + 1, i + 3);
    DottedGroupStep(s, i, i + 3, n);
  }

  /** A digit followed by a non-digit is a last group of one character. */
  lemma LastDigit(s: string, i: nat)
    requires i + 1 < |s| && IsDigit(s[i]) && !IsDigit(s[i + 1])
    ensures Scan(DigitGroups(1), s, i) == Some(i + 1)
  {
    RunEndUnique(Digit, s, i + 1, i + 1);
  }

  /** `://` followed by four one-digit groups and a non-digit is an IP match of ten characters. */
  lemma QuadAt(s: string, p: nat)
    requires p + 10 < |s| && s[p..p + 3] == "://" && !IsDigit(s[p + 10])
    requires IsDigit(s[p + 3]) && IsDigit(s[p + 5]) && IsDigit(s[p + 7]) && IsDigit(s[p + 9])
    requires s[p + 4] == '.' && s[p + 6] == '.' && s[p + 8] == '.'
    ensures Scan(IpPattern, s, p) == Some(p + 10)
  {
    ScanLit("://", DigitGroups(4), s, p);
    DigitDot(s, p + 3, 4);
    DigitDot(s, p + 5, 3);
    DigitDot(s, p + 7, 2);
    RunEndUnique(Digit, s, p + 10, p + 10);
    assert Scan(DigitGroups(1), s, p + 9) == Some(p + 10);
  }

  /** One digit and a dot close a group. */
  lemma DigitDot(s: string, i: nat, n: nat)
    requires n >= 2 && i + 1 < |s| && IsDigit(s[i]) && s[i + 1] == '.'
    ensures Scan(DigitGroups(n), s, i) == Scan(DigitGroups(n - 1), s, i + 2)
  {
    RunEndUnique(Digit, s, i + 1, i + 1);
    DottedGroupStep(s, i, i + 1, n);
  }

  /** A run of digits from `i` to `e`, a dot, and the remaining groups. */
  lemma DottedGroupStep(s: string, i: nat, e: nat, n: nat)
    requires n >= 2 && i < e < |s| && IsDigit(s[i]) && RunEnd(Digit, s, i + 1) == e && s[e] == '.'
    ensures Scan(DigitGroups(n), s, i) == Scan(DigitGroups(n - 1), s, e + 1)
  {
    ScanPlus(Digit, Lit(".", false, DigitGroups(n - 1)), s, i);
    ScanLit(".", DigitGroups(n - 1), s, e);
  }

  /** A dotted quad that does not follow `://` immediately is not an IP. */
  lemma IpOnlyAfterScheme(s: string)
    requires s == "http://example.com/1.2.3.4"
    ensures HasIp(s) == 0
  {
    IpPatternIsGreedy();
    SchemeOfExample(s);
    forall p, j | 0 <= p <= j <= |s| && Matches(IpPattern, s, p, j)
      ensures false
    {
      GreedyLongest(IpPattern, s, p, j);
      IpMatchOpens(s, p);
    }
  }

  lemma SchemeOfExample(s: string)
    requires s == "http://example.com/1.2.3.4"
    ensures forall p :: 0 <= p < |s| && s[p] == ':' ==> p == 4
    ensures !IsDigit(s[7])
  {
  }

  /** An IP match starts at a `:` and its first group starts three characters later. */
  lemma IpMatchOpens(s: string, p: nat)
    requires p <= |s| && Scan(IpPattern, s, p).Some?
    ensures p + 3 < |s| && s[p] == ':' && IsDigit(s[p + 3])
  {
    ScanLit("://", DigitGroups(4), s, p);
    assert s[p..p + 3][0] == s[p];
  }
}
