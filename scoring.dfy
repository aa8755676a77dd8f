/**
  * The decision step of src/api/app.py: the feature row is cut down to the model's columns in
  * training order, the model's output is turned into one score in [0, 1] by `score_from_model`,
  * and the score and the features give the label and the human-readable reasons.
  *
  * A loaded model is an opaque handle. Here it is a value holding what its two entry points do
  * with a frame: return a result or raise. The logistic function is a parameter: any function
  * into the open interval (0, 1).
  */
module Scoring {
  import opened Wrappers
  import opened UrlFeatures
  import opened XssFeatures

  /** One row of a feature frame: column names in order, and the row's values. */
  datatype Frame = Frame(columns: seq<string>, values: seq<real>)

  /** `df[cols]`: the named columns in the given order; a missing one is a KeyError naming it. */
  function Select(row: map<string, real>, cols: seq<string>): (r: Result<Frame, string>)
    ensures r.Ok? <==> forall c :: c in cols ==> c in row
    ensures r.Ok? ==> r.value.columns == cols && |r.value.values| == |cols|
                      && forall i :: 0 <= i < |cols| ==> r.value.values[i] == row[cols[i]]
    ensures r.Err? ==> r.error in cols && r.error !in row
  {
    if cols == [] then Ok(Frame([], []))
    else if cols[0] !in row then Err(cols[0])
    else
      match Select(row, cols[1..])
      case Err(missing) => Err(missing)
      case Ok(rest) => Ok(Frame(cols, [row[cols[0]]] + rest.values))
  }

  /** The columns `extract_basic_features` adds to the frame, in order (`tld` left out). */
  const UrlAddedColumns: seq<string> := ["len", "has_ip", "digits", "subdirs", "dashes", "has_at"]

  /** The columns `predict_url` hands to the model. */
  const PhishingFeatureColumns: seq<string> := ["len", "has_ip", "digits", "subdirs", "dashes", "has_at"]

  /** The columns the phishing model was trained on. */
  const PhishingTrainingColumns: seq<string> := ["len", "has_ip", "digits", "subdirs", "dashes", "has_at"]

  /** The columns `extract_xss_features` adds to the frame, in order. */
  const XssAddedColumns: seq<string> :=
    ["len", "num_script", "num_iframe", "num_on_events", "num_js_proto",
     "num_eval", "num_alert", "num_tags", "num_quotes", "tags_ratio"]

  /** The columns `predict_xss` hands to the model. */
  const XssFeatureColumns: seq<string> :=
    ["len", "num_script", "num_iframe", "num_on_events", "num_js_proto",
     "num_eval", "num_alert", "num_tags", "num_quotes", "tags_ratio"]

  /** The columns the XSS model was trained on. */
  const XssTrainingColumns: seq<string> :=
    ["len", "num_script", "num_iframe", "num_on_events", "num_js_proto",
     "num_eval", "num_alert", "num_tags", "num_quotes", "tags_ratio"]

  /** Inference feeds each model its features in the order it was trained with. */
  lemma InferenceMatchesTraining()
    ensures PhishingFeatureColumns == PhishingTrainingColumns
    ensures XssFeatureColumns == XssTrainingColumns
  {
  }

  /** No column name occurs twice. */
  ghost predicate Distinct(names: seq<string>) {
    forall i, j :: 0 <= i < j < |names| ==> names[i] != names[j]
  }

  /** Columns added one after another: `names[i]` holds `values[i]`. */
  function Columns(names: seq<string>, values: seq<real>): map<string, real>
    requires |names| == |values|
  {
    if names == [] then map[] else Columns(names[1..], values[1..])[names[0] := values[0]]
  }

  /** With distinct names, each added column can be read back. */
  lemma {:induction false} ColumnsLookup(names: seq<string>, values: seq<real>, i: nat)
    requires |names| == |values| && Distinct(names) && i < |names|
    ensures names[i] in Columns(names, values) && Columns(names, values)[names[i]] == values[i]
  {
    if i > 0 {
      ColumnsLookup(names[1..], values[1..], i - 1);
    }
  }

  /** Selecting the added columns in the order they were added returns the added values. */
  lemma SelectColumns(names: seq<string>, values: seq<real>)
    requires |names| == |values| && Distinct(names)
    ensures Select(Columns(names, values), names) == Ok(Frame(names, values))
  {
    var row := Columns(names, values);
    forall c | c in names
      ensures c in row
    {
      var i :| 0 <= i < |names| && names[i] == c;
      ColumnsLookup(names, values, i);
    }
    var r := Select(row, names);
    forall i | 0 <= i < |names|
      ensures r.value.values[i] == values[i]
    {
      ColumnsLookup(names, values, i);
    }
    assert r.value.values == values;
  }

  /** The numeric columns of a URL row, as the extractor adds them. */
  function UrlTable(r: UrlRow): map<string, real> {
    Columns(UrlAddedColumns, [r.len as real, r.hasIp as real, r.digits as real,
                              r.subdirs as real, r.dashes as real, r.hasAt as real])
  }

  /** The numeric columns of a payload row, as the extractor adds them. */
  function XssTable(f: PayloadFeatures): map<string, real> {
    Columns(XssAddedColumns, [f.len as real, f.numScript as real, f.numIframe as real,
                              f.numOnEvents as real, f.numJsProto as real, f.numEval as real,
                              f.numAlert as real, f.numTags as real, f.numQuotes as real, f.tagsRatio])
  }

  /** `X = df[feature_cols]` in `predict_url`: every column exists, so the selection succeeds. */
  function PhishingInput(r: UrlRow): (x: Frame)
    ensures x.columns == PhishingTrainingColumns
    ensures x.values == [r.len as real, r.hasIp as real, r.digits as real,
                         r.subdirs as real, r.dashes as real, r.hasAt as real]
  {
    assert Distinct(UrlAddedColumns) && PhishingFeatureColumns == UrlAddedColumns;
    SelectColumns(UrlAddedColumns, [r.len as real, r.hasIp as real, r.digits as real,
                                    r.subdirs as real, r.dashes as real, r.hasAt as real]);
    Select(UrlTable(r), PhishingFeatureColumns).value
  }

  /** `X = df[feature_cols]` in `predict_xss`. */
  function XssInput(f: PayloadFeatures): (x: Frame)
    ensures x.columns == XssTrainingColumns
    ensures x.values == [f.len as real, f.numScript as real, f.numIframe as real,
                         f.numOnEvents as real, f.numJsProto as real, f.numEval as real,
                         f.numAlert as real, f.numTags as real, f.numQuotes as real, f.tagsRatio]
  {
    assert Distinct(XssAddedColumns) && XssFeatureColumns == XssAddedColumns;
    SelectColumns(XssAddedColumns, [f.len as real, f.numScript as real, f.numIframe as real,
                                    f.numOnEvents as real, f.numJsProto as real, f.numEval as real,
                                    f.numAlert as real, f.numTags as real, f.numQuotes as real, f.tagsRatio]);
    Select(XssTable(f), XssFeatureColumns).value
  }

  /** The logistic function `1 / (1 + exp(-x))`, left uninterpreted: some function into (0, 1). */
  type Logistic = f: real -> real | forall x :: 0.0 < f(x) < 1.0 witness (x: real) => 0.5

  /** What calling into the model does: return a value, or raise. */
  datatype Call<T> = Returns(value: T) | Raises

  /** Number of entries of an array of the given shape. */
  function Product(shape: seq<nat>): nat {
    if shape == [] then 1 else shape[0] * Product(shape[1..])
  }

  /** A numpy array: its shape and its entries in row-major order. */
  datatype NdArray = NdArray(shape: seq<nat>, data: seq<real>)

  type Table = a: NdArray | |a.data| == Product(a.shape) witness NdArray([], [0.0])

  /** Where entry `idx` of an array of shape `shape` sits in row-major order. */
  function Offset(shape: seq<nat>, idx: seq<nat>): nat
    requires |idx| == |shape|
  {
    if shape == [] then 0 else idx[0] * Product(shape[1..]) + Offset(shape[1..], idx[1..])
  }

  /** The index of row 0's first entry: all zeros. */
  function Zeros(n: nat): (z: seq<nat>)
    ensures |z| == n && forall i :: 0 <= i < n ==> z[i] == 0
  {
    if n == 0 then [] else [0] + Zeros(n - 1)
  }

  lemma {:induction false} OffsetOfZeros(shape: seq<nat>)
    ensures Offset(shape, Zeros(|shape|)) == 0
  {
    if shape != [] {
      assert Zeros(|shape|)[1..] == Zeros(|shape| - 1);
      OffsetOfZeros(shape[1..]);
    }
  }

  /** A two-column (or wider) table: `proba.ndim == 2 and proba.shape[1] > 1`. */
  predicate Wide(a: Table) {
    |a.shape| == 2 && a.shape[1] > 1
  }

  /** Row 0 holds exactly one value: `proba[0].item()` succeeds. */
  predicate SingleValuedRow(a: Table) {
    |a.shape| >= 1 && a.shape[0] > 0 && Product(a.shape[1..]) == 1
  }

  /**
    * The score read from `predict_proba`'s table: entry [0, 1] of a wide table, row 0's only
    * value otherwise; `None` where the indexing or `.item()` would raise.
    */
  function ProbaScore(a: Table): (o: Option<real>)
    ensures Wide(a) ==> (o.Some? <==> a.shape[0] > 0)
    ensures !Wide(a) ==> (o.Some? <==> SingleValuedRow(a))
    ensures o.Some? ==> o.value in a.data
    ensures o.Some? && Wide(a) ==> Offset(a.shape, [0, 1]) == 1 < |a.data| && o.value == a.data[1]
    ensures o.Some? && !Wide(a) ==> Offset(a.shape, Zeros(|a.shape|)) == 0 && o.value == a.data[0]
  {
    if Wide(a) then
      if a.shape[0] > 0 then
        WideEntry(a.shape[0], a.shape[1]);
        assert a.shape == [a.shape[0], a.shape[1]];
        Some(a.data[1])
      else None
    else if SingleValuedRow(a) then
      OffsetOfZeros(a.shape);
      Some(a.data[0])
    else None
  }

  /** In an `rows` by `cols` table with a row and two columns, entry [0, 1] is the second. */
  lemma WideEntry(rows: nat, cols: nat)
    requires rows > 0 && cols > 1
    ensures Product([rows, cols]) == rows * cols >= 2
    ensures Offset([rows, cols], [0, 1]) == 1
  {
    var shape: seq<nat> := [rows, cols];
    var idx: seq<nat> := [0, 1];
    assert shape[1..] == [cols] && shape[1..][1..] == [];
    assert idx[1..] == [1] && idx[1..][1..] == [];
    assert Product(shape[1..]) == cols;
    assert Product(shape) == rows * cols;
    assert Offset(shape[1..], idx[1..]) == 1;
    assert rows * cols >= cols;
  }

  /** One element of a prediction sequence: a Python float, or something `int()` may convert. */
  datatype Elem = Float(x: real) | Other(asInt: Option<int>)

  /**
    * What `predict` returned: something with a length (its elements; an empty one cannot be
    * indexed), or a scalar (`float(preds)`, `None` where that conversion raises).
    */
  datatype Prediction = Items(elems: seq<Elem>) | Scalar(asFloat: Option<real>)

  /** A loaded model: its `predict_proba`, if it has one, and its `predict`. */
  datatype Model = Model(
    predictProba: Option<Frame -> Call<Table>>,
    predict: Option<Frame -> Call<Prediction>>)

  /** A value already in [0, 1] is kept; anything else goes through the logistic function. */
  function Squash(x: real, sigma: Logistic): (s: real)
    ensures 0.0 <= s <= 1.0
    ensures 0.0 <= x <= 1.0 ==> s == x
    ensures !(0.0 <= x <= 1.0) ==> s == sigma(x) && 0.0 < s < 1.0
  {
    if 0.0 <= x <= 1.0 then x else sigma(x)
  }

  /** The score read from `predict`'s output, `None` where reading it raises. */
  function PredictScore(p: Prediction, sigma: Logistic): (o: Option<real>)
    ensures o.Some? ==> 0.0 <= o.value <= 1.0
    ensures p.Items? ==> (o.Some? <==> |p.elems| > 0 && (p.elems[0].Float? || p.elems[0].asInt.Some?))
    ensures p.Scalar? ==> (o.Some? <==> p.asFloat.Some?)
    ensures p.Items? && |p.elems| > 0 && p.elems[0].Float? ==> o == Some(Squash(p.elems[0].x, sigma))
    ensures p.Scalar? && p.asFloat.Some? ==> o == Some(Squash(p.asFloat.value, sigma))
    ensures p.Items? && o.Some? && p.elems[0].Other? ==> (o.value == 1.0 <==> p.elems[0].asInt.value != 0)
    ensures p.Items? && o.Some? && p.elems[0].Other? ==> (o.value == 0.0 <==> p.elems[0].asInt.value == 0)
  {
    match p
    case Items(es) =>
      if es == [] then None
      else (
        match es[0]
        case Float(x) => Some(Squash(x, sigma))
        case Other(n) => if n.None? then None else Some(if n.value != 0 then 1.0 else 0.0))
    case Scalar(v) => if v.None? then None else Some(Squash(v.value, sigma))
  }

  /** What the `predict_proba` attempt yields: absent, raising or unusable all give `None`. */
  function ProbaOutcome(m: Model, x: Frame): (o: Option<real>)
    ensures o.Some? <==> m.predictProba.Some? && m.predictProba.value(x).Returns?
                         && ProbaScore(m.predictProba.value(x).value).Some?
    ensures o.Some? ==> o.value in m.predictProba.value(x).value.data
  {
    match m.predictProba
    case None => None
    case Some(proba) =>
      match proba(x)
      case Raises => None
      case Returns(a) => ProbaScore(a)
  }

  /** What the `predict` attempt yields. */
  function PredictOutcome(m: Model, x: Frame, sigma: Logistic): (o: Option<real>)
    ensures o.Some? <==> m.predict.Some? && m.predict.value(x).Returns?
                         && PredictScore(m.predict.value(x).value, sigma).Some?
    ensures o.Some? ==> 0.0 <= o.value <= 1.0
  {
    match m.predict
    case None => None
    case Some(predict) =>
      match predict(x)
      case Raises => None
      case Returns(p) => PredictScore(p, sigma)
  }

  /** All entries of the table `predict_proba` returns lie in [0, 1], as a classifier's do. */
  ghost predicate ProbaInRange(m: Model, x: Frame) {
    m.predictProba.Some? && m.predictProba.value(x).Returns? ==>
      forall v :: v in m.predictProba.value(x).value.data ==> 0.0 <= v <= 1.0
  }

  /** The RuntimeError raised when neither entry point gives a score. */
  datatype ScoreError = NoUsableScore

  /** `score_from_model`: `predict_proba` first, then `predict`, otherwise an error. */
  function ScoreFromModel(m: Model, x: Frame, sigma: Logistic): (r: Result<real, ScoreError>)
    ensures r.Err? <==> ProbaOutcome(m, x).None? && PredictOutcome(m, x, sigma).None?
    ensures ProbaOutcome(m, x).Some? ==> r == Ok(ProbaOutcome(m, x).value)
    ensures ProbaOutcome(m, x).None? && PredictOutcome(m, x, sigma).Some? ==> r == Ok(PredictOutcome(m, x, sigma).value)
    ensures r.Ok? && ProbaOutcome(m, x).None? ==> 0.0 <= r.value <= 1.0
    ensures r.Ok? && ProbaInRange(m, x) ==> 0.0 <= r.value <= 1.0
  {
    match ProbaOutcome(m, x)
    case Some(s) => Ok(s)
    case None =>
      match PredictOutcome(m, x, sigma)
      case Some(s) => Ok(s)
      case None => Err(NoUsableScore)
  }

  /** A usable `predict_proba` result is returned and `predict` is never consulted. */
  lemma ProbaTakesPriority(m: Model, x: Frame, sigma: Logistic, other: Option<Frame -> Call<Prediction>>)
    requires ProbaOutcome(m, x).Some?
    ensures ScoreFromModel(m, x, sigma) == Ok(ProbaOutcome(m, x).value)
    ensures ScoreFromModel(m, x, sigma) == ScoreFromModel(m.(predict := other), x, sigma)
  {
  }

  /** An absent, raising or unusable `predict_proba` is as if the model had none. */
  lemma FallsThroughToPredict(m: Model, x: Frame, sigma: Logistic)
    requires ProbaOutcome(m, x).None?
    ensures ScoreFromModel(m, x, sigma) == ScoreFromModel(m.(predictProba := None), x, sigma)
  {
  }

  /** Only the first element of a sequence prediction matters. */
  lemma FirstElementDecides(e: Elem, rest: seq<Elem>, sigma: Logistic)
    ensures PredictScore(Items([e] + rest), sigma) == PredictScore(Items([e]), sigma)
  {
  }

  /** A model whose `predict` gives a sequence of one float. */
  function FloatModel(v: real): Model {
    Model(None, Some((x: Frame) => Returns(Items([Float(v)]))))
  }

  /** A probability is returned as is; a raw score is squashed; a label counts as 0 or 1. */
  lemma PredictExamples(x: Frame, sigma: Logistic)
    ensures ScoreFromModel(FloatModel(0.73), x, sigma) == Ok(0.73)
    ensures ScoreFromModel(FloatModel(-2.0), x, sigma) == Ok(sigma(-2.0))
    ensures ScoreFromModel(Model(None, Some((y: Frame) => Returns(Items([Other(Some(1))])))), x, sigma) == Ok(1.0)
    ensures ScoreFromModel(Model(None, Some((y: Frame) => Returns(Scalar(Some(2.0))))), x, sigma) == Ok(sigma(2.0))
  {
  }

  /** A one-row, two-column probability table gives the second column. */
  lemma ProbaExample(x: Frame, sigma: Logistic)
    ensures ScoreFromModel(Model(Some((y: Frame) => Returns(NdArray([1, 2], [0.2, 0.8]))), None), x, sigma) == Ok(0.8)
  {
    var a: Table := NdArray([1, 2], [0.2, 0.8]);
    assert Wide(a);
  }

  /** `score > 0.5`, strictly. */
  predicate Positive(score: real) { score > 0.5 }

  /** The label of `predict_url`. */
  function UrlLabel(score: real): (l: string)
    ensures l == "phishing" <==> score > 0.5
    ensures l == "benign" <==> score <= 0.5
  {
    if Positive(score) then "phishing" else "benign"
  }

  /** The label of `predict_xss`. */
  function XssLabel(score: real): (l: string)
    ensures l == "malicious" <==> score > 0.5
    ensures l == "clean" <==> score <= 0.5
  {
    if Positive(score) then "malicious" else "clean"
  }

  /** The rules of `predict_url`, in the order they are tried. */
  const UrlRules: seq<string> := ["contains IP", "contains @", "many digits"]

  /** The rules of `predict_xss`, in the order they are tried. */
  const XssRules: seq<string> := ["script tag", "on* event handler", "javascript: proto"]

  /** `xs` is `ys` with some elements left out: the same order, nothing added. */
  predicate IsSubsequence<T(==)>(xs: seq<T>, ys: seq<T>) {
    if xs == [] then true
    else if ys == [] then false
    else if xs[0] == ys[0] then IsSubsequence(xs[1..], ys[1..])
    else IsSubsequence(xs, ys[1..])
  }

  lemma {:induction false} SubsequenceOfEmpty<T>(ys: seq<T>)
    ensures IsSubsequence([], ys)
  {
  }

  /** A rule that does not fire is skipped. */
  lemma {:induction false} SubsequenceSkip<T>(xs: seq<T>, ys: seq<T>, v: T)
    requires IsSubsequence(xs, ys)
    ensures IsSubsequence(xs, ys + [v])
    decreases |ys|
  {
    if xs != [] {
      assert ys != [];
      assert (ys + [v])[1..] == ys[1..] + [v];
      if xs[0] == ys[0] {
        SubsequenceSkip(xs[1..], ys[1..], v);
      } else {
        SubsequenceSkip(xs, ys[1..], v);
      }
    }
  }

  /** A rule that fires contributes its reason after all earlier ones. */
  lemma {:induction false} SubsequenceTake<T>(xs: seq<T>, ys: seq<T>, v: T)
    requires IsSubsequence(xs, ys)
    ensures IsSubsequence(xs + [v], ys + [v])
    decreases |ys|
  {
    if xs == [] {
      if ys == [] {
        assert IsSubsequence([v][1..], [v][1..]);
      } else if ys[0] == v {
        assert ([] + [v])[1..] == [];
        assert IsSubsequence([], (ys + [v])[1..]);
      } else {
        assert (ys + [v])[1..] == ys[1..] + [v];
        SubsequenceTake(xs, ys[1..], v);
      }
    } else {
      assert ys != [];
      assert (xs + [v])[1..] == xs[1..] + [v];
      assert (ys + [v])[1..] == ys[1..] + [v];
      if xs[0] == ys[0] {
        SubsequenceTake(xs[1..], ys[1..], v);
      } else {
        SubsequenceTake(xs, ys[1..], v);
      }
    }
  }

  /** The reasons `predict_url` gives: one per rule that fires, in rule order. */
  method UrlReasons(r: UrlRow) returns (reasons: seq<string>)
    ensures "contains IP" in reasons <==> r.hasIp == 1
    ensures "contains @" in reasons <==> r.hasAt == 1
    ensures "many digits" in reasons <==> r.digits > 10
    ensures IsSubsequence(reasons, UrlRules)
  {
    reasons := [];
    SubsequenceOfEmpty(UrlRules[..0]);
    if r.hasIp == 1 {
      SubsequenceTake(reasons, UrlRules[..0], UrlRules[0]);
      reasons := reasons + ["contains IP"];
    } else {
      SubsequenceSkip(reasons, UrlRules[..0], UrlRules[0]);
    }
    assert UrlRules[..0] + [UrlRules[0]] == UrlRules[..1];
    if r.hasAt == 1 {
      SubsequenceTake(reasons, UrlRules[..1], UrlRules[1]);
      reasons := reasons + ["contains @"];
    } else {
      SubsequenceSkip(reasons, UrlRules[..1], UrlRules[1]);
    }
    assert UrlRules[..1] + [UrlRules[1]] == UrlRules[..2];
    if r.digits > 10 {
      SubsequenceTake(reasons, UrlRules[..2], UrlRules[2]);
      reasons := reasons + ["many digits"];
    } else {
      SubsequenceSkip(reasons, UrlRules[..2], UrlRules[2]);
    }
    assert UrlRules[..2] + [UrlRules[2]] == UrlRules;
  }

  /** `http://192.168.1.1/login@verify-account.com` is flagged both for its IP host and for its `@`. */
  method IpAndAtReasons(s: string, host: string, path: string) returns (reasons: seq<string>)
    requires host == "http://192.168.1.1" && path == "/login@verify-account.com" && s == host + path
    ensures "contains IP" in reasons && "contains @" in reasons
  {
    IpAndAtInUrl(s, host, path);
    reasons := UrlReasons(ExtractBasicFeatures(s));
  }

  /** `javascript:alert(document.cookie)` is flagged for its `javascript:` protocol. */
  method JsProtoAlertReasons(s: string, proto: string, call: string) returns (reasons: seq<string>)
    requires proto == "javascript:" && call == "alert(document.cookie)" && s == proto + call
    ensures "javascript: proto" in reasons
  {
    JsProtoAlertPayload(s, proto, call);
    reasons := XssReasons(FeaturesOf(s));
  }

  /** The reasons `predict_xss` gives: one per rule that fires, in rule order. */
  method XssReasons(f: PayloadFeatures) returns (reasons: seq<string>)
    ensures "script tag" in reasons <==> f.numScript > 0
    ensures "on* event handler" in reasons <==> f.numOnEvents > 0
    ensures "javascript: proto" in reasons <==> f.numJsProto > 0
    ensures IsSubsequence(reasons, XssRules)
  {
    reasons := [];
    SubsequenceOfEmpty(XssRules[..0]);
    if f.numScript > 0 {
      SubsequenceTake(reasons, XssRules[..0], XssRules[0]);
      reasons := reasons + ["script tag"];
    } else {
      SubsequenceSkip(reasons, XssRules[..0], XssRules[0]);
    }
    assert XssRules[..0] + [XssRules[0]] == XssRules[..1];
    if f.numOnEvents > 0 {
      SubsequenceTake(reasons, XssRules[..1], XssRules[1]);
      reasons := reasons + ["on* event handler"];
    } else {
      SubsequenceSkip(reasons, XssRules[..1], XssRules[1]);
    }
    assert XssRules[..1] + [XssRules[1]] == XssRules[..2];
    if f.numJsProto > 0 {
      SubsequenceTake(reasons, XssRules[..2], XssRules[2]);
      reasons := reasons + ["javascript: proto"];
    } else {
      SubsequenceSkip(reasons, XssRules[..2], XssRules[2]);
    }
    assert XssRules[..2] + [XssRules[2]] == XssRules;
  }

  /** The response body. `verdict` is the response's `"label"` key (`label` is a reserved word here). */
  datatype Decision = Decision(verdict: string, score: real, reasons: seq<string>)
}
