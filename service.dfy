/**
  * The two prediction routes of src/api/app.py and the module-level model caches behind them.
  * Each cache starts empty and is filled by the first successful load; a failed load leaves it
  * empty, so the next request tries again. What is on disk at the moment of a load is a
  * parameter (`ModelFile`); reading it is not modelled.
  */
module Service {
  import opened Wrappers
  import opened UrlFeatures
  import opened XssFeatures
  import opened Scoring

  /** What the expected model path holds: no file, a file `load` fails on, or a saved model. */
  datatype ModelFile = Missing | Unloadable | Saved(handle: Model)

  /** Why a request fails (the route turns every one of these into an HTTP 500). */
  datatype ServiceError =
    | ModelNotFound(name: string)   // the RuntimeError "… not found at …. Train the model first."
    | LoadFailed(name: string)      // whatever `load` raised
    | ScoreFailed(e: ScoreError)    // score_from_model's RuntimeError

  const PhishingModelName: string := "phishing_model"
  const XssModelName: string := "xss_model"

  /**
    * One call of a lazy loader: the new cache and the result. A filled cache is returned as is,
    * without looking at the file; otherwise a saved model is loaded and cached.
    */
  function Lookup(cache: Option<Model>, file: ModelFile, name: string): (Option<Model>, Result<Model, ServiceError>) {
    if cache.Some? then (cache, Ok(cache.value))
    else
      match file
      case Missing => (None, Err(ModelNotFound(name)))
      case Unloadable => (None, Err(LoadFailed(name)))
      case Saved(m) => (Some(m), Ok(m))
  }

  /** The result is always what the cache holds afterwards, and a filled cache is never replaced. */
  lemma LookupKeepsCache(cache: Option<Model>, file: ModelFile, name: string)
    ensures Lookup(cache, file, name).1.Ok? <==> Lookup(cache, file, name).0.Some?
    ensures Lookup(cache, file, name).1.Ok? ==> Lookup(cache, file, name).0 == Some(Lookup(cache, file, name).1.value)
    ensures cache.Some? ==> Lookup(cache, file, name).0 == cache
    ensures Lookup(cache, file, name).1.Err? ==> Lookup(cache, file, name).0 == cache
  {
  }

  /**
    * Initialise once: after a successful load, every later call returns the same handle whatever
    * the disk holds by then; after a failed one, the next call loads afresh.
    */
  lemma LoadOnce(cache: Option<Model>, first: ModelFile, later: ModelFile, name: string)
    ensures var (c1, r1) := Lookup(cache, first, name);
            r1.Ok? ==> Lookup(c1, later, name) == (c1, r1)
    ensures var (c1, r1) := Lookup(cache, first, name);
            r1.Err? ==> Lookup(c1, later, name) == Lookup(cache, later, name)
  {
  }

  /** A missing file is reported by name and leaves an empty cache empty. */
  lemma MissingFileRaises(file: ModelFile, name: string)
    requires file.Missing?
    ensures Lookup(None, file, name) == (None, Err(ModelNotFound(name)))
  {
  }

  /** The module globals `_phishing_model` and `_xss_model`. */
  class ModelCache {
    var phishing: Option<Model>
    var xss: Option<Model>

    /** At import time both caches are empty. */
    constructor()
      ensures phishing.None? && xss.None?
    {
      phishing := None;
      xss := None;
    }

    /** `get_phishing_model`. */
    method GetPhishingModel(file: ModelFile) returns (r: Result<Model, ServiceError>)
      modifies this
      ensures (phishing, r) == Lookup(old(phishing), file, PhishingModelName)
      ensures xss == old(xss)
    {
      if phishing.None? {
        match file
        case Missing =>
          return Err(ModelNotFound(PhishingModelName));
        case Unloadable =>
          return Err(LoadFailed(PhishingModelName));
        case Saved(m) =>
          phishing := Some(m);
      }
      r := Ok(phishing.value);
    }

    /** `get_xss_model`. */
    method GetXssModel(file: ModelFile) returns (r: Result<Model, ServiceError>)
      modifies this
      ensures (xss, r) == Lookup(old(xss), file, XssModelName)
      ensures phishing == old(phishing)
    {
      if xss.None? {
        match file
        case Missing =>
          return Err(ModelNotFound(XssModelName));
        case Unloadable =>
          return Err(LoadFailed(XssModelName));
        case Saved(m) =>
          xss := Some(m);
      }
      r := Ok(xss.value);
    }

    /**
      * `predict_url`: features, the model (loaded on first use), the score, then label and
      * reasons. The label follows the score alone; the reasons follow the features alone.
      */
    method PredictUrl(url: string, file: ModelFile, sigma: Logistic) returns (r: Result<Decision, ServiceError>)
      modifies this
      ensures phishing == Lookup(old(phishing), file, PhishingModelName).0
      ensures xss == old(xss)
      ensures r.Ok? <==> (Lookup(old(phishing), file, PhishingModelName).1.Ok?
                          && ScoreFromModel(phishing.value, PhishingInput(ExtractBasicFeatures(url)), sigma).Ok?)
      ensures r.Err? ==>
        r.error == (if Lookup(old(phishing), file, PhishingModelName).1.Err?
                    then Lookup(old(phishing), file, PhishingModelName).1.error
                    else ScoreFailed(NoUsableScore))
      ensures r.Ok? ==>
        var row := ExtractBasicFeatures(url);
        && r.value.score == ScoreFromModel(phishing.value, PhishingInput(row), sigma).value
        && r.value.verdict == UrlLabel(r.value.score)
        && ("contains IP" in r.value.reasons <==> row.hasIp == 1)
        && ("contains @" in r.value.reasons <==> row.hasAt == 1)
        && ("many digits" in r.value.reasons <==> row.digits > 10)
        && IsSubsequence(r.value.reasons, UrlRules)
    {
      var row := ExtractBasicFeatures(url);
      var x := PhishingInput(row);
      var loaded := GetPhishingModel(file);
      if loaded.Err? {
        return Err(loaded.error);
      }
      var score := ScoreFromModel(loaded.value, x, sigma);
      if score.Err? {
        return Err(ScoreFailed(score.error));
      }
      var reasons := UrlReasons(row);
      r := Ok(Decision(UrlLabel(score.value), score.value, reasons));
    }

    /** `predict_xss`: the same pipeline over the payload features. */
    method PredictXss(payload: string, file: ModelFile, sigma: Logistic) returns (r: Result<Decision, ServiceError>)
      modifies this
      ensures xss == Lookup(old(xss), file, XssModelName).0
      ensures phishing == old(phishing)
      ensures r.Ok? <==> (Lookup(old(xss), file, XssModelName).1.Ok?
                          && ScoreFromModel(xss.value, XssInput(FeaturesOf(payload)), sigma).Ok?)
      ensures r.Err? ==>
        r.error == (if Lookup(old(xss), file, XssModelName).1.Err?
                    then Lookup(old(xss), file, XssModelName).1.error
                    else ScoreFailed(NoUsableScore))
      ensures r.Ok? ==>
        var f := FeaturesOf(payload);
        && r.value.score == ScoreFromModel(xss.value, XssInput(f), sigma).value
        && r.value.verdict == XssLabel(r.value.score)
        && ("script tag" in r.value.reasons <==> f.numScript > 0)
        && ("on* event handler" in r.value.reasons <==> f.numOnEvents > 0)
        && ("javascript: proto" in r.value.reasons <==> f.numJsProto > 0)
        && IsSubsequence(r.value.reasons, XssRules)
    {
      PayloadOnlyRow(payload);
      var extracted := ExtractXssFeatures(map["payload" := payload]);
      r := DecideXss(extracted.value.features, file, sigma);
    }

    /** The steps of `predict_xss` after feature extraction: load, score, label and reasons. */
    method DecideXss(f: PayloadFeatures, file: ModelFile, sigma: Logistic) returns (r: Result<Decision, ServiceError>)
      modifies this
      ensures xss == Lookup(old(xss), file, XssModelName).0
      ensures phishing == old(phishing)
      ensures r.Ok? <==> (Lookup(old(xss), file, XssModelName).1.Ok?
                          && ScoreFromModel(xss.value, XssInput(f), sigma).Ok?)
      ensures r.Err? ==>
        r.error == (if Lookup(old(xss), file, XssModelName).1.Err?
                    then Lookup(old(xss), file, XssModelName).1.error
                    else ScoreFailed(NoUsableScore))
      ensures r.Ok? ==>
        && r.value.score == ScoreFromModel(xss.value, XssInput(f), sigma).value
        && r.value.verdict == XssLabel(r.value.score)
        && ("script tag" in r.value.reasons <==> f.numScript > 0)
        && ("on* event handler" in r.value.reasons <==> f.numOnEvents > 0)
        && ("javascript: proto" in r.value.reasons <==> f.numJsProto > 0)
        && IsSubsequence(r.value.reasons, XssRules)
    {
      var x := XssInput(f);
      var loaded := GetXssModel(file);
      if loaded.Err? {
        return Err(loaded.error);
      }
      var score := ScoreFromModel(loaded.value, x, sigma);
      if score.Err? {
        return Err(ScoreFailed(score.error));
      }
      var reasons := XssReasons(f);
      r := Ok(Decision(XssLabel(score.value), score.value, reasons));
    }
  }
}
