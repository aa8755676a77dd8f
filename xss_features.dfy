/**
  * The payload feature extractor of src/features/xss_features.py: a request payload becomes
  * ten numbers for the XSS classifier. Each count is the number of non-overlapping matches of a
  * pattern, as `re.findall` and pandas' `str.count` return it; the patterns are case-insensitive
  * except the two single-character ones.
  */
module XssFeatures {
  import opened Wrappers
  import opened Chars
  import opened Regex

  /** `(?i)<\s*script` */
  const ScriptTag: Regex := Cat(One(Is('<')), Many(Space, Text("script", true)))

  /** `(?i)<\s*iframe` */
  const IframeTag: Regex := Cat(One(Is('<')), Many(Space, Text("iframe", true)))

  /** EVENT_HANDLER_RE: `on\w+\s*=` with IGNORECASE. */
  const EventHandler: Regex := Lit("on", true, Plus(Word, Many(Space, One(Is('=')))))

  /** `(?i)javascript:` */
  const JsProto: Regex := Text("javascript:", true)

  /** `(?i)\beval\s*\(` */
  const EvalCall: Regex := Cat(Boundary, Lit("eval", true, Many(Space, One(Is('(')))))

  /** `(?i)alert\s*\(` */
  const AlertCall: Regex := Lit("alert", true, Many(Space, One(Is('('))))

  /** `<` */
  const Tag: Regex := One(Is('<'))

  /** `["']` */
  const Quote: Regex := One(AnyOf(['"', '\'']))

  /** The features added to a row, in the order the frame gains them. */
  datatype PayloadFeatures = PayloadFeatures(
    len: nat,
    numScript: nat,
    numIframe: nat,
    numOnEvents: nat,
    numJsProto: nat,
    numEval: nat,
    numAlert: nat,
    numTags: nat,
    numQuotes: nat,
    tagsRatio: real)

  /** A row after `extract_xss_features`: its columns (with `payload` ensured) and the features. */
  datatype XssRow = XssRow(columns: map<string, string>, features: PayloadFeatures)

  /** The KeyError raised when the row has neither a `payload` nor a `url` column. */
  datatype XssError = NoPayloadOrUrlColumn

  /*
   * Each pattern has at most one match at each position (`Det`), so the deterministic `Scan`
   * finds exactly the match the backtracking engine finds; `MinLen` is its shortest match.
   */

  lemma ScriptTagShape()
    ensures Det(ScriptTag) && Consumes(ScriptTag) && MinLen(ScriptTag) == 7 && OpensWith(ScriptTag, Is('<'))
  {
    TextShape("script", true);
  }

  lemma IframeTagShape()
    ensures Det(IframeTag) && Consumes(IframeTag) && MinLen(IframeTag) == 7 && OpensWith(IframeTag, Is('<'))
  {
    TextShape("iframe", true);
  }

  lemma EventHandlerShape()
    ensures Det(EventHandler) && Consumes(EventHandler) && MinLen(EventHandler) == 4
  {
    LitShape("on", true, Plus(Word, Many(Space, One(Is('=')))));
  }

  lemma JsProtoShape()
    ensures Det(JsProto) && Consumes(JsProto) && MinLen(JsProto) == 11
  {
    TextShape("javascript:", true);
  }

  lemma EvalCallShape()
    ensures Det(EvalCall) && Consumes(EvalCall) && MinLen(EvalCall) == 5
  {
    LitShape("eval", true, Many(Space, One(Is('('))));
  }

  lemma AlertCallShape()
    ensures Det(AlertCall) && Consumes(AlertCall) && MinLen(AlertCall) == 6
  {
    LitShape("alert", true, Many(Space, One(Is('('))));
  }

  /** The ten features of one payload string. */
  function FeaturesOf(p: string): (f: PayloadFeatures)
    ensures f.len == |p|
    ensures f.numTags == multiset(p)['<']
    ensures f.numQuotes == multiset(p)['"'] + multiset(p)['\'']
    ensures f.numScript == Starts(ScriptTag, p, 0) && f.numIframe == Starts(IframeTag, p, 0)
    ensures f.numScript + f.numIframe <= f.numTags
    ensures 7 * f.numScript <= f.len && 7 * f.numIframe <= f.len && 4 * f.numOnEvents <= f.len
    ensures 11 * f.numJsProto <= f.len && 5 * f.numEval <= f.len && 6 * f.numAlert <= f.len
    ensures f.numTags <= f.len && f.tagsRatio == TagsRatio(f.numTags, f.len)
    ensures 0.0 <= f.tagsRatio < 1.0
  {
    CountFacts(p);
    var tags := Count(Tag, p);
    PayloadFeatures(
      |p|,
      Count(ScriptTag, p),
      Count(IframeTag, p),
      Count(EventHandler, p),
      Count(JsProto, p),
      Count(EvalCall, p),
      Count(AlertCall, p),
      tags,
      Count(Quote, p),
      TagsRatio(tags, |p|))
  }

  /** What the feature contract needs to know about the pattern counts of one payload. */
  lemma CountFacts(p: string)
    ensures Consumes(ScriptTag) && Consumes(IframeTag) && Consumes(EventHandler)
    ensures Consumes(JsProto) && Consumes(EvalCall) && Consumes(AlertCall)
    ensures Count(Tag, p) == multiset(p)['<'] && Count(Tag, p) <= |p|
    ensures Count(Quote, p) == multiset(p)['"'] + multiset(p)['\'']
    ensures Count(ScriptTag, p) == Starts(ScriptTag, p, 0) && Count(IframeTag, p) == Starts(IframeTag, p, 0)
    ensures Count(ScriptTag, p) + Count(IframeTag, p) <= Count(Tag, p)
    ensures 7 * Count(ScriptTag, p) <= |p| && 7 * Count(IframeTag, p) <= |p|
    ensures 4 * Count(EventHandler, p) <= |p| && 11 * Count(JsProto, p) <= |p|
    ensures 5 * Count(EvalCall, p) <= |p| && 6 * Count(AlertCall, p) <= |p|
  {
    ScriptTagShape();
    IframeTagShape();
    EventHandlerShape();
    JsProtoShape();
    EvalCallShape();
    AlertCallShape();
    CountsWithinLength(p);
    TagOpenersWithinTags(p);
    SingleCharacterCounts(p);
  }

  /** `tags_ratio`: `num_tags / (len + 1)`; the `+ 1` keeps the empty payload defined. */
  function TagsRatio(tags: nat, len: nat): (r: real)
    ensures 0.0 <= r
    ensures r * (len + 1) as real == tags as real
    ensures r < 1.0 <==> tags <= len
  {
    tags as real / (len + 1) as real
  }

  /** Each non-overlapping count is bounded by the length over the pattern's shortest match. */
  lemma CountsWithinLength(p: string)
    ensures 7 * Count(ScriptTag, p) <= |p| && 7 * Count(IframeTag, p) <= |p|
    ensures 4 * Count(EventHandler, p) <= |p| && 11 * Count(JsProto, p) <= |p|
    ensures 5 * Count(EvalCall, p) <= |p| && 6 * Count(AlertCall, p) <= |p|
  {
    ScriptTagShape();
    CountWithinLength(ScriptTag, p, 0);
    IframeTagShape();
    CountWithinLength(IframeTag, p, 0);
    EventHandlerShape();
    CountWithinLength(EventHandler, p, 0);
    JsProtoShape();
    CountWithinLength(JsProto, p, 0);
    EvalCallShape();
    CountWithinLength(EvalCall, p, 0);
    AlertCallShape();
    CountWithinLength(AlertCall, p, 0);
  }

  /** `str.count` of `<` and of `["']` count characters. */
  lemma SingleCharacterCounts(p: string)
    ensures Count(Tag, p) == multiset(p)['<']
    ensures Count(Quote, p) == multiset(p)['"'] + multiset(p)['\'']
  {
    CountOfOne(Is('<'), p, 0);
    CountOfOne(AnyOf(['"', '\'']), p, 0);
    assert p[0..] == p;
    OccurrencesIsMultiplicity(p, '<');
    OccurrencesOfPair(p, '"', '\'');
    OccurrencesIsMultiplicity(p, '"');
    OccurrencesIsMultiplicity(p, '\'');
  }

  /**
    * `<script` and `<iframe` openings are counted at distinct `<` characters: matches of one
    * pattern cannot overlap, and the two patterns cannot open at the same `<`.
    */
  lemma TagOpenersWithinTags(p: string)
    ensures Count(ScriptTag, p) == Starts(ScriptTag, p, 0)
    ensures Count(IframeTag, p) == Starts(IframeTag, p, 0)
    ensures Count(ScriptTag, p) + Count(IframeTag, p) <= Count(Tag, p)
  {
    ScriptTagShape();
    IframeTagShape();
    NonOverlappingIsStarts(ScriptTag, Is('<'), p, 0);
    NonOverlappingIsStarts(IframeTag, Is('<'), p, 0);
    OpenersFrom(p, 0);
    CountOfOne(Is('<'), p, 0);
  }

  lemma {:induction false} OpenersFrom(p: string, i: nat)
    requires i <= |p|
    ensures Starts(ScriptTag, p, i) + Starts(IframeTag, p, i) <= Occurrences(p[i..], Is('<'))
    decreases |p| - i
  {
    if i < |p| {
      OccurrencesStep(p, i, Is('<'));
      OpenersFrom(p, i + 1);
      if Scan(ScriptTag, p, i).Some? || Scan(IframeTag, p, i).Some? {
        OneOpenerAt(p, i);
      }
    }
  }

  /** A position opens at most one of the two tags, and only where a `<` stands. */
  lemma OneOpenerAt(p: string, i: nat)
    requires i < |p|
    ensures Scan(ScriptTag, p, i).Some? || Scan(IframeTag, p, i).Some? ==> p[i] == '<'
    ensures !(Scan(ScriptTag, p, i).Some? && Scan(IframeTag, p, i).Some?)
  {
    TagOpenerAt("script", p, i);
    TagOpenerAt("iframe", p, i);
  }

  /** `<`, optional whitespace and a word matches only at a `<` followed by the word's first letter. */
  lemma TagOpenerAt(w: string, p: string, i: nat)
    requires w != [] && i < |p|
    ensures Scan(Cat(One(Is('<')), Many(Space, Text(w, true))), p, i).Some?
            ==> p[i] == '<' && i + 1 <= RunEnd(Space, p, i + 1) < |p|
                && Lower(p[RunEnd(Space, p, i + 1)]) == Lower(w[0])
  {
    if p[i] == '<' {
      var e := RunEnd(Space, p, i + 1);
      assert Scan(Many(Space, Text(w, true)), p, i + 1) == Scan(Text(w, true), p, e);
      ScanTextFold(w, p, e);
      if Scan(Text(w, true), p, e).Some? {
        assert p[e..e + |w|][0] == p[e];
      }
    }
  }

  /**
    * `extract_xss_features` for one row: a missing `payload` column is filled from `url`, a row
    * with neither is refused, and the features are those of the payload.
    */
  function ExtractXssFeatures(row: map<string, string>): (r: Result<XssRow, XssError>)
    ensures r.Err? <==> "payload" !in row && "url" !in row
    ensures r.Ok? ==> ("payload" in r.value.columns
                       && r.value.features == FeaturesOf(r.value.columns["payload"]))
    ensures "payload" in row ==> r.Ok? && r.value.columns == row
    ensures "payload" !in row && "url" in row
            ==> r.Ok? && r.value.columns == row["payload" := row["url"]]
                && r.value.columns["payload"] == row["url"]
  {
    var columns :=
      if "payload" in row then Ok(row)
      else if "url" in row then Ok(row["payload" := row["url"]])
      else Err(NoPayloadOrUrlColumn);
    match columns
    case Err(e) => Err(e)
    case Ok(cols) => Ok(XssRow(cols, FeaturesOf(cols["payload"])))
  }

  /** A one-column frame holding the payload: the features are those of the payload. */
  lemma PayloadOnlyRow(payload: string)
    ensures ExtractXssFeatures(map["payload" := payload])
         == Ok(XssRow(map["payload" := payload], FeaturesOf(payload)))
  {
  }

  /** Stretches without an `o` or `O` hold no event-handler match. */
  lemma NoHandlerBetween(s: string, a: nat, b: nat)
    requires a <= b <= |s|
    requires forall q :: a <= q < b ==> Lower(s[q]) != 'o'
    ensures CountFrom(EventHandler, s, a) == CountFrom(EventHandler, s, b)
  {
    EventHandlerShape();
    forall q | a <= q < b
      ensures Scan(EventHandler, s, q).None?
    {
      NoOpenerNoScan(EventHandler, Folded('o'), s, q);
    }
    CountSkip(EventHandler, s, a, b);
  }

  /** `onNAME=` at `i`, with the name running to `eq`, the position of `=`. */
  lemma HandlerAt(s: string, i: nat, eq: nat)
    requires i + 2 < eq < |s|
    requires Lower(s[i]) == 'o' && Lower(s[i + 1]) == 'n' && s[eq] == '='
    requires forall q :: i + 2 <= q < eq ==> IsWord(s[q])
    ensures CountFrom(EventHandler, s, i) == 1 + CountFrom(EventHandler, s, eq + 1)
  {
    EventHandlerShape();
    HandlerScan(s, i, eq);
    CountFromMatch(EventHandler, s, i, eq + 1);
  }

  lemma HandlerScan(s: string, i: nat, eq: nat)
    requires i + 2 < eq < |s|
    requires Lower(s[i]) == 'o' && Lower(s[i + 1]) == 'n' && s[eq] == '='
    requires forall q :: i + 2 <= q < eq ==> IsWord(s[q])
    ensures Scan(EventHandler, s, i) == Some(eq + 1)
  {
    HandlerNameAt(s, i + 2, eq);
    ScanLitFold("on", Plus(Word, Many(Space, One(Is('=')))), s, i);
    assert FoldEq(s[i..i + 2], "on");
  }

  /** The part after `on`: a name running to `eq`, then `=` straight away. */
  lemma HandlerNameAt(s: string, n: nat, eq: nat)
    requires n < eq < |s| && s[eq] == '='
    requires forall q :: n <= q < eq ==> IsWord(s[q])
    ensures Scan(Plus(Word, Many(Space, One(Is('=')))), s, n) == Some(eq + 1)
  {
    RunEndUnique(Word, s, n + 1, eq);
    RunEndUnique(Space, s, eq, eq);
    ScanPlus(Word, Many(Space, One(Is('='))), s, n);
    assert Scan(Many(Space, One(Is('='))), s, eq) == Some(eq + 1);
  }

  /** One handler attribute in an image tag: `onerror=` is found once. */
  lemma OneHandler(s: string)
    requires s == "<img onerror=alert(1)>"
    ensures FeaturesOf(s).numOnEvents == 1
  {
    OnErrorCount(s);
    FeaturesCounts(s);
  }

  lemma OnErrorCount(s: string)
    requires s == "<img onerror=alert(1)>"
    ensures Count(EventHandler, s) == 1
  {
    NoHandlerBetween(s, 0, 5);
    OnErrorAt(s);
    NoHandlerBetween(s, 13, |s|);
  }

  lemma OnErrorAt(s: string)
    requires s == "<img onerror=alert(1)>"
    ensures CountFrom(EventHandler, s, 5) == 1 + CountFrom(EventHandler, s, 13)
  {
    HandlerAt(s, 5, 12);
  }

  /** Two handler attributes in one tag are both found. */
  lemma TwoHandlers(s: string)
    requires s == "<a onclick=x onmouseover=y>"
    ensures FeaturesOf(s).numOnEvents == 2
  {
    OnClickOnMouseOverCount(s);
    FeaturesCounts(s);
  }

  lemma OnClickOnMouseOverCount(s: string)
    requires s == "<a onclick=x onmouseover=y>"
    ensures Count(EventHandler, s) == 2
  {
    FirstHandler(s);
    NoHandlerBetween(s, 0, 3);
  }

  lemma FirstHandler(s: string)
    requires s == "<a onclick=x onmouseover=y>"
    ensures CountFrom(EventHandler, s, 3) == 2
  {
    SecondHandler(s);
    NoHandlerBetween(s, 11, 13);
    OnClickAt(s);
  }

  lemma OnClickAt(s: string)
    requires s == "<a onclick=x onmouseover=y>"
    ensures CountFrom(EventHandler, s, 3) == 1 + CountFrom(EventHandler, s, 11)
  {
    HandlerAt(s, 3, 10);
  }

  lemma SecondHandler(s: string)
    requires s == "<a onclick=x onmouseover=y>"
    ensures CountFrom(EventHandler, s, 13) == 1
  {
    NoHandlerBetween(s, 25, |s|);
    HandlerAt(s, 13, 24);
  }

  /** Stretches without `<` hold neither a tag, a `<script` nor an `<iframe`. */
  lemma NoTagBetween(s: string, a: nat, b: nat)
    requires a <= b <= |s|
    requires forall q :: a <= q < b ==> s[q] != '<'
    ensures CountFrom(Tag, s, a) == CountFrom(Tag, s, b)
    ensures Starts(ScriptTag, s, a) == Starts(ScriptTag, s, b)
  {
    forall q | a <= q < b
      ensures Scan(Tag, s, q).None? && Scan(ScriptTag, s, q).None?
    {
      NoOpenerNoScan(ScriptTag, Is('<'), s, q);
    }
    CountSkip(Tag, s, a, b);
    StartsSkip(ScriptTag, s, a, b);
  }

  /** Stretches without an `a` or `A` hold no `alert(` match. */
  lemma NoAlertBetween(s: string, a: nat, b: nat)
    requires a <= b <= |s|
    requires forall q :: a <= q < b ==> Lower(s[q]) != 'a'
    ensures CountFrom(AlertCall, s, a) == CountFrom(AlertCall, s, b)
  {
    AlertCallShape();
    forall q | a <= q < b
      ensures Scan(AlertCall, s, q).None?
    {
      NoOpenerNoScan(AlertCall, Folded('a'), s, q);
    }
    CountSkip(AlertCall, s, a, b);
  }

  /**
    * The classic payload: 25 characters, two `<`, so a tag ratio of 2/26; one `<script` opening
    * (the closing `</script` has a `/` after its `<`) and one `alert(` call.
    */
  lemma ScriptAlertPayload(s: string)
    requires s == "<script>alert(1)</script>"
    ensures FeaturesOf(s).len == 25 && FeaturesOf(s).numTags == 2
    ensures FeaturesOf(s).tagsRatio == 2.0 / 26.0
    ensures FeaturesOf(s).numScript == 1 && FeaturesOf(s).numAlert == 1
  {
    ScriptAlertTags(s);
    ScriptAlertCall(s);
    FeaturesCounts(s);
    TwoTagsInTwentyFive(s);
  }

  lemma TwoTagsInTwentyFive(s: string)
    requires |s| == 25 && FeaturesOf(s).numTags == 2
    ensures FeaturesOf(s).tagsRatio == 2.0 / 26.0
  {
    assert FeaturesOf(s).tagsRatio * 26.0 == 2.0;
  }

  lemma ScriptAlertTags(s: string)
    requires s == "<script>alert(1)</script>"
    ensures Count(Tag, s) == 2 && Starts(ScriptTag, s, 0) == 1
  {
    ClosingTagAt(s);
    NoTagBetween(s, 17, 25);
    NoTagBetween(s, 1, 16);
    ScriptOpensAt(s);
    CountFromMatch(Tag, s, 0, 1);
    CountFromMatch(Tag, s, 16, 17);
  }

  /** The `<` of `</script>` is a tag but opens no `<script`. */
  lemma ClosingTagAt(s: string)
    requires s == "<script>alert(1)</script>"
    ensures Scan(Tag, s, 16) == Some(17) && Scan(ScriptTag, s, 16).None?
  {
    assert s[16] == '<' && s[17] == '/';
    TagOpenerAt("script", s, 16);
    RunEndUnique(Space, s, 17, 17);
  }

  lemma ScriptOpensAt(s: string)
    requires s == "<script>alert(1)</script>"
    ensures Scan(ScriptTag, s, 0) == Some(7)
  {
    assert s[..7] == "<script";
    assert s[1..7] == "script";
    TagAt("script", s, 0);
  }

  /** `<` directly followed by the word `w` in any case. */
  lemma TagAt(w: string, s: string, i: nat)
    requires w != [] && i + 1 + |w| <= |s| && s[i] == '<' && !IsSpace(s[i + 1])
    requires FoldEq(s[i + 1..i + 1 + |w|], w)
    ensures Scan(Cat(One(Is('<')), Many(Space, Text(w, true))), s, i) == Some(i + 1 + |w|)
  {
    RunEndUnique(Space, s, i + 1, i + 1);
    ScanTextFold(w, s, i + 1);
    assert Scan(Many(Space, Text(w, true)), s, i + 1) == Some(i + 1 + |w|);
  }

  lemma ScriptAlertCall(s: string)
    requires s == "<script>alert(1)</script>"
    ensures Count(AlertCall, s) == 1
  {
    NoAlertBetween(s, 14, 25);
    AlertOpensAt(s);
    NoAlertBetween(s, 0, 8);
  }

  lemma AlertOpensAt(s: string)
    requires s == "<script>alert(1)</script>"
    ensures Scan(AlertCall, s, 8) == Some(14)
  {
    assert s[..13] == "<script>alert";
    assert s[8..13] == "alert";
    AlertAt(s, 8);
  }

  /** `alert` in any case directly followed by `(`. */
  lemma AlertAt(s: string, i: nat)
    requires i + 6 <= |s| && FoldEq(s[i..i + 5], "alert") && s[i + 5] == '('
    ensures Scan(AlertCall, s, i) == Some(i + 6)
  {
    RunEndUnique(Space, s, i + 5, i + 5);
    assert Scan(Many(Space, One(Is('('))), s, i + 5) == Some(i + 6);
    ScanLitFold("alert", Many(Space, One(Is('('))), s, i);
  }

  /** The counts as the extractor takes them from the patterns. */
  lemma FeaturesCounts(p: string)
    ensures Consumes(ScriptTag) && Consumes(IframeTag) && Consumes(JsProto) && Consumes(EvalCall)
    ensures Consumes(EventHandler) && Consumes(AlertCall) && Consumes(Tag)
    ensures FeaturesOf(p).numScript == Count(ScriptTag, p) && FeaturesOf(p).numIframe == Count(IframeTag, p)
    ensures FeaturesOf(p).numJsProto == Count(JsProto, p) && FeaturesOf(p).numEval == Count(EvalCall, p)
    ensures FeaturesOf(p).numOnEvents == Count(EventHandler, p)
    ensures FeaturesOf(p).numAlert == Count(AlertCall, p)
    ensures FeaturesOf(p).numTags == Count(Tag, p)
  {
    ScriptTagShape();
    IframeTagShape();
    JsProtoShape();
    EvalCallShape();
    EventHandlerShape();
    AlertCallShape();
  }

  /** A deterministic pattern's count is positive exactly when it matches somewhere. */
  lemma PositiveCountIsMatch(r: Regex, p: string)
    requires Det(r) && Consumes(r)
    ensures Count(r, p) > 0 <==> MatchFrom(r, p, 0)
  {
    DetIsGreedy(r);
    CountPositiveIffMatch(r, p, 0);
  }

  /**
    * Each pattern feature is positive exactly when its pattern occurs in the payload; the reason
    * rules of the XSS route test exactly this.
    */
  lemma CountsDetectMatches(p: string)
    ensures FeaturesOf(p).numScript > 0 <==> MatchFrom(ScriptTag, p, 0)
    ensures FeaturesOf(p).numIframe > 0 <==> MatchFrom(IframeTag, p, 0)
    ensures FeaturesOf(p).numOnEvents > 0 <==> MatchFrom(EventHandler, p, 0)
    ensures FeaturesOf(p).numJsProto > 0 <==> MatchFrom(JsProto, p, 0)
    ensures FeaturesOf(p).numEval > 0 <==> MatchFrom(EvalCall, p, 0)
    ensures FeaturesOf(p).numAlert > 0 <==> MatchFrom(AlertCall, p, 0)
  {
    ScriptTagShape();
    IframeTagShape();
    EventHandlerShape();
    JsProtoShape();
    EvalCallShape();
    AlertCallShape();
    PositiveCountIsMatch(ScriptTag, p);
    PositiveCountIsMatch(IframeTag, p);
    PositiveCountIsMatch(EventHandler, p);
    PositiveCountIsMatch(JsProto, p);
    PositiveCountIsMatch(EvalCall, p);
    PositiveCountIsMatch(AlertCall, p);
    FeaturesCounts(p);
  }

  /**
    * `javascript:alert(document.cookie)`, given as its protocol and the call after it: one
    * `javascript:` and one `alert(`; the `a`s inside `javascript` open no call.
    */
  lemma JsProtoAlertPayload(s: string, proto: string, call: string)
    requires proto == "javascript:" && call == "alert(document.cookie)" && s == proto + call
    ensures FeaturesOf(s).numJsProto == 1 && FeaturesOf(s).numAlert == 1
  {
    JsProtoOnce(s, proto, call);
    AlertOnceAfterProto(s, proto, call);
    FeaturesCounts(s);
  }

  lemma JsProtoOnce(s: string, proto: string, call: string)
    requires proto == "javascript:" && call == "alert(document.cookie)" && s == proto + call
    ensures Count(JsProto, s) == 1
  {
    JsProtoShape();
    JsProtoOpens(s, proto, call);
    CountFromMatch(JsProto, s, 0, 11);
    CallLetters(call);
    NoJsProtoInCall(s, proto, call);
  }

  lemma JsProtoOpens(s: string, proto: string, call: string)
    requires proto == "javascript:" && call == "alert(document.cookie)" && s == proto + call
    ensures Scan(JsProto, s, 0) == Some(11)
  {
    TextAtStart(proto, s, call);
  }

  lemma NoJsProtoInCall(s: string, proto: string, call: string)
    requires s == proto + call
    requires forall k :: 0 <= k < |call| ==> Lower(call[k]) != 'j'
    ensures Consumes(JsProto) && CountFrom(JsProto, s, |proto|) == 0
  {
    JsProtoShape();
    JsProtoOpener();
    SkipSuffix(JsProto, 'j', s, proto, call, 0);
  }

  /** `javascript:` opens with the letter `j`, in either case. */
  lemma JsProtoOpener()
    ensures JsProto.Cat? && JsProto.a == One(Folded('j')) && Lower('j') == 'j'
  {
    var w := "javascript:";
    assert w[0] == 'j' && |w| != 1;
  }

  lemma AlertOnceAfterProto(s: string, proto: string, call: string)
    requires proto == "javascript:" && call == "alert(document.cookie)" && s == proto + call
    ensures Count(AlertCall, s) == 1
  {
    AlertCallShape();
    ProtoOpensNoAlert(proto);
    forall q | 0 <= q < |proto|
      ensures Scan(AlertCall, s, q).None?
    {
      assert s[q] == proto[q];
      if Lower(s[q]) == 'a' {
        assert s[q + 1] == proto[q + 1];
        NotAlertAt(s, q);
      } else {
        NoOpenerNoScan(AlertCall, Folded('a'), s, q);
      }
    }
    CountSkip(AlertCall, s, 0, 11);
    AlertAfterProto(s, proto, call);
    CallLetters(call);
    SkipSuffix(AlertCall, 'a', s, proto, call, 6);
  }

  lemma AlertAfterProto(s: string, proto: string, call: string)
    requires proto == "javascript:" && call == "alert(document.cookie)" && s == proto + call
    ensures CountFrom(AlertCall, s, 11) == 1 + CountFrom(AlertCall, s, 17)
  {
    assert s[11..16] == call[..5] == "alert" && s[16] == call[5] == '(';
    AlertAt(s, 11);
    CountFromMatch(AlertCall, s, 11, 17);
  }

  /** A text that starts with the literal `w` matches it, ignoring case, at position 0. */
  lemma TextAtStart(w: string, s: string, rest: string)
    requires w != [] && s == w + rest
    ensures Scan(Text(w, true), s, 0) == Some(|w|)
  {
    assert s[0..|w|] == w;
    ScanTextFold(w, s, 0);
  }

  /** The letters of the call: no `j` anywhere, and no `a` after `alert(`. */
  lemma CallLetters(call: string)
    requires call == "alert(document.cookie)"
    ensures forall k :: 0 <= k < |call| ==> Lower(call[k]) != 'j'
    ensures forall k :: 6 <= k < |call| ==> Lower(call[k]) != 'a'
  {
  }

  /** Each `a` of `javascript:` is followed by something other than `l`, and the last character is no `a`. */
  lemma ProtoOpensNoAlert(proto: string)
    requires proto == "javascript:"
    ensures forall k :: 0 <= k < |proto| && Lower(proto[k]) == 'a' ==> k + 1 < |proto| && Lower(proto[k + 1]) != 'l'
  {
  }

  /**
    * A pattern opening with the letter `c` (any case) is not found in the part of `call` from
    * `from` on, when no such letter stands there.
    */
  lemma SkipSuffix(r: Regex, c: char, s: string, proto: string, call: string, from: nat)
    requires s == proto + call && from <= |call|
    requires Consumes(r) && r.Cat? && r.a == One(Folded(c))
    requires forall k :: from <= k < |call| ==> Lower(call[k]) != Lower(c)
    ensures CountFrom(r, s, |proto| + from) == 0
  {
    forall q | |proto| + from <= q < |s|
      ensures Scan(r, s, q).None?
    {
      assert s[q] == call[q - |proto|];
      NoOpenerNoScan(r, Folded(c), s, q);
    }
    CountSkip(r, s, |proto| + from, |s|);
  }

  /** `a` not followed by an `l` opens no `alert(`. */
  lemma NotAlertAt(s: string, i: nat)
    requires i + 1 < |s| && Lower(s[i + 1]) != 'l'
    ensures Scan(AlertCall, s, i).None?
  {
    ScanLitFold("alert", Many(Space, One(Is('('))), s, i);
    if i + 5 <= |s| {
      assert s[i..i + 5][1] == s[i + 1];
    }
  }

  /** `\beval\s*\(` at `i`: a word boundary, then the letters of `eval` ignoring case, then the rest. */
  lemma EvalAt(s: string, i: nat)
    requires i <= |s|
    ensures Scan(EvalCall, s, i)
         == if WordBefore(s, i) != WordAt(s, i) && i + 4 <= |s| && FoldEq(s[i..i + 4], "eval")
            then Scan(Many(Space, One(Is('('))), s, i + 4) else None
  {
    ScanLitFold("eval", Many(Space, One(Is('('))), s, i);
  }

  /** `eval(` glued to a preceding letter has no word boundary and is not counted; after a space it is. */
  lemma EvalNeedsBoundary(glued: string, spaced: string)
    requires glued == "xeval(" && spaced == " eval("
    ensures FeaturesOf(glued).numEval == 0 && FeaturesOf(spaced).numEval == 1
  {
    GluedEval(glued);
    SpacedEval(spaced);
    FeaturesCounts(glued);
    FeaturesCounts(spaced);
  }

  lemma GluedEval(s: string)
    requires s == "xeval("
    ensures Count(EvalCall, s) == 0
  {
    EvalCallShape();
    forall q | 0 <= q < |s|
      ensures Scan(EvalCall, s, q).None?
    {
      EvalAt(s, q);
      if q == 0 {
        assert s[0..4][0] == 'x';
      }
    }
    CountSkip(EvalCall, s, 0, |s|);
  }

  lemma SpacedEval(s: string)
    requires s == " eval("
    ensures Count(EvalCall, s) == 1
  {
    EvalCallShape();
    EvalAt(s, 0);
    EvalAt(s, 1);
    assert s[1..5] == "eval";
    RunEndUnique(Space, s, 5, 5);
    assert Scan(Many(Space, One(Is('('))), s, 5) == Some(6);
    CountFromMatch(EvalCall, s, 1, 6);
  }
}
