# Rakshak detection core, modelled in Dafny

Rakshak is a small web service that flags phishing URLs and cross-site-scripting (XSS)
payloads. Each request goes through the same steps. A feature extractor turns the request string
into a row of numbers. A lazily loaded classifier scores that row. The score gets a label at the
0.5 threshold, and a fixed list of rules adds human-readable reasons. Alongside the service, a
training helper normalises the XSS data set's labels to 0/1, and a script repairs CSV lines
that have an odd number of double quotes.

This project models that core:

- `UrlFeatures` (url_features.dfy) models `extract_basic_features` for one URL. It adds the
  length, the IP flag (`://` followed by a dotted quad, found anywhere), the digit count, the
  `/` and `-` counts and the `@` flag.
- `XssFeatures` (xss_features.dfy) models `extract_xss_features` for one row. A missing
  `payload` column is filled from `url`, and a row with neither is refused. The row then gets
  ten features: eight non-overlapping pattern counts, the length and `tags_ratio`.
- `Regex` (regex.dfy) supports both extractors. It defines a small regular-expression language
  with a relational meaning (`Matches`) and a deterministic scanner (`Scan`). Every pattern the
  XSS extractor counts is deterministic: it has at most one match at each position, so `Scan`
  finds the match that Python's backtracking engine finds. The IP pattern of the URL extractor
  is greedy rather than deterministic. `Scan` finds its longest match, and only the existence of
  a match is used. Counting follows `re.findall` and `str.count`: scan from the left, and after
  a match resume at its end.
- `Scoring` (scoring.dfy) models `score_from_model` over a model handle that may have a
  `predict_proba` and/or a `predict` entry point, each of which can return or raise. It also
  models the column selection `df[feature_cols]`, the two labels and the two ordered reason
  lists.
- `Service` (service.dfy) holds the two module-level model caches in a class with two
  `Option` fields. The two loaders and the two prediction routes are methods on that class.
  What the model path holds at the moment of a load is a parameter.
- `LabelNormalizer` (label_normalizer.dfy) models `normalize_label`. It covers the numeric
  path, the fixed vocabulary, the two-value fallback and the error that lists the sorted
  distinct values.
- `CsvRepair` (csv_repair.dfy) models `clean_file` as a loop over the input lines. It writes
  the header, then each data line, with every `"` removed from a line whose count of `"` is
  odd. It also reports the numbers of the repaired lines. A missing input file gives no output.
- `Chars` (chars.dfy) and `Wrappers` (wrappers.dfy) hold the ASCII character classes, the
  occurrence counts and the `Option`/`Result` types.

## Model

| member | source | states |
|---|---|---|
| UrlFeatures.ExtractBasicFeatures | src/features/url_features.py:8-45 | The row keeps the url. `len` is its length. `has_ip` is 0/1 and is 1 exactly when the IP pattern matches somewhere. `has_at` is 1 exactly when `@` occurs. `subdirs` and `dashes` are the multiplicities of `/` and `-`. `digits` is the summed multiplicity of '0'…'9'. The four counts together never exceed the length. |
| UrlFeatures.HasIp | src/features/url_features.py:12-13 | 1 exactly when `://` followed by four dot-separated digit runs matches starting at some position, otherwise 0. |
| UrlFeatures.NumDigits | src/features/url_features.py:15-16 | The number of digit characters equals the sum of the multiplicities of '0' … '9', and is at most the length. |
| UrlFeatures.CountSubdirs | src/features/url_features.py:18-19 | Equals the number of `/` characters. |
| UrlFeatures.CountDashes | src/features/url_features.py:21-22 | Equals the number of `-` characters. |
| UrlFeatures.HasAt | src/features/url_features.py:24-25 | 0/1, and 1 exactly when `@` occurs. |
| UrlFeatures.DigitsByMultiset | src/features/url_features.py:15-16 | The digit count is the same as counting each of the ten digit characters in the multiset of the URL. |
| UrlFeatures.CountedClassesFit | src/features/url_features.py:15-25 | Digits, `/`, `-` and `@` are disjoint classes, so their counts add up to at most the length. |
| UrlFeatures.EmptyUrl | src/features/url_features.py:37-42 | The empty URL gives length 0 and every feature 0. |
| UrlFeatures.IpAfterScheme | src/features/url_features.py:5 | `http://1.2.3.4/path` is flagged: the dotted quad right after `://` matches, even with a path after it. |
| UrlFeatures.IpOnlyAfterScheme | src/features/url_features.py:5 | `http://example.com/1.2.3.4` is not flagged: a dotted quad counts only directly after `://`. |
| Scoring.UrlTable | src/features/url_features.py:37-42 | The six numeric columns the URL extractor adds, keyed by their column names. Its meaning is stated by Scoring.SelectColumns and Scoring.PhishingInput. |
| Scoring.IpAndAtReasons | src/api/app.py:147-153 | `http://192.168.1.1/login@verify-account.com` gets both the "contains IP" and the "contains @" reason. |
| UrlFeatures.IpAndAtInUrl | src/features/url_features.py:12-25 | `http://192.168.1.1/login@verify-account.com` has `has_ip` 1 and `has_at` 1. Scoring.IpAndAtReasons turns these into both reasons. |
| UrlFeatures.IpPatternIsGreedy | src/features/url_features.py:5 | Every digit run of the IP pattern but the last is followed by `.`, which cannot continue it. So at each position the scanner finds the longest match, as the backtracking engine would. |
| XssFeatures.ExtractXssFeatures | src/features/xss_features.py:7-15 | Fails exactly when the row has neither `payload` nor `url`. A present `payload` leaves the row unchanged. Otherwise `payload` is added as a copy of `url`. The features are always those of the `payload` value. |
| XssFeatures.FeaturesOf | src/features/xss_features.py:17-29 | `len` is the length. `num_tags` is the number of `<` and `num_quotes` the number of `"` plus `'`. `<script` and `<iframe` are counted at distinct `<` characters. Each count times the pattern's shortest match fits in the length. `tags_ratio` is `num_tags/(len+1)` and lies in [0, 1). |
| XssFeatures.FeaturesCounts | src/features/xss_features.py:20-26 | Each pattern count of the row is the non-overlapping count of its pattern over the payload, and every counted pattern consumes at least one character per match. |
| XssFeatures.PositiveCountIsMatch | src/features/xss_features.py:20-25 | For a deterministic pattern, the count is positive exactly when the pattern matches somewhere. |
| XssFeatures.CountsDetectMatches | src/features/xss_features.py:20-25 | The script, iframe, event-handler, `javascript:`, eval and alert counts are each positive exactly when their pattern matches somewhere in the payload. So each XSS reason fires exactly when its pattern is found. |
| XssFeatures.JsProtoAlertPayload | src/features/xss_features.py:23-25 | `javascript:alert(document.cookie)` has exactly one `javascript:` and exactly one alert call. |
| Scoring.JsProtoAlertReasons | src/api/app.py:170-176 | `javascript:alert(document.cookie)` gets the "javascript: proto" reason. |
| XssFeatures.EvalNeedsBoundary | src/features/xss_features.py:24 | `xeval(` has no eval call, because `eval` there does not start at a word boundary. ` eval(` has one. |
| Scoring.XssTable | src/features/xss_features.py:19-29 | The ten numeric columns the XSS extractor adds, keyed by their column names. Its meaning is stated by Scoring.SelectColumns and Scoring.XssInput. |
| XssFeatures.TagsRatio | src/features/xss_features.py:29 | Non-negative, times `len + 1` gives back `num_tags`, and below 1 exactly when `num_tags <= len`. |
| XssFeatures.CountsWithinLength | src/features/xss_features.py:20-25 | Non-overlapping counts are bounded: 7 × script, 7 × iframe, 4 × handlers, 11 × `javascript:`, 5 × eval and 6 × alert each fit in the length. |
| XssFeatures.SingleCharacterCounts | src/features/xss_features.py:26-27 | Counting the patterns `<` and `["']` is counting characters. |
| XssFeatures.TagOpenersWithinTags | src/features/xss_features.py:20-26 | The script and iframe counts equal the number of positions where each opens. Together they are at most the number of `<`. |
| XssFeatures.OneOpenerAt | src/features/xss_features.py:20-21 | A position opens at most one of `<script` and `<iframe`, and only where a `<` stands. |
| XssFeatures.ScriptAlertPayload | src/features/xss_features.py:17-29 | `<script>alert(1)</script>` has length 25, 2 tags, one script opening and one alert call, and a ratio of 2/26. |
| XssFeatures.OneHandler | src/features/xss_features.py:22 | `<img onerror=alert(1)>` has one event handler. |
| XssFeatures.TwoHandlers | src/features/xss_features.py:22 | `<a onclick=x onmouseover=y>` has two event handlers: the first match does not swallow the second. |
| XssFeatures.HandlerAt | src/features/xss_features.py:5 | `on`, a run of word characters and `=` make one match, and counting resumes after the `=`. |
| XssFeatures.PayloadOnlyRow | src/api/app.py:162-163 | A one-column frame holding the payload keeps that column and gets the payload's features. |
| Regex.Scan | src/features/xss_features.py:20-25 | A match the scanner reports at a position really is a match of the pattern there, and it ends within the string. |
| Regex.CountFrom | src/features/xss_features.py:20-25 | The count from a position is at most the remaining length. Its meaning is stated by Regex.NonOverlappingIsStarts, Regex.CountWithinLength and Regex.CountPositiveIffMatch. |
| Regex.Count | src/features/xss_features.py:20-25 | `len(re.findall(...))`: at most the length. Its meaning is stated by Regex.CountPositiveIffMatch and XssFeatures.CountsDetectMatches. |
| Regex.CountPositiveIffMatch | src/features/xss_features.py:20-25 | For a greedy pattern whose matches are never empty, the count from a position is positive exactly when a match starts at or after it. |
| Regex.DetUnique | src/features/xss_features.py:20-25 | For a deterministic pattern, any match at a position is the one the scanner returns. |
| Regex.GreedyLongest | src/features/url_features.py:5 | For a greedy pattern, the scanner's match at a position is at least as long as any other match there. |
| Regex.Search | src/features/url_features.py:13 | `re.search`: true exactly when a match starts at or after the position. |
| Regex.NonOverlappingIsStarts | src/features/xss_features.py:20-21 | For a pattern that opens with a class its remainder avoids, non-overlapping counting equals the number of positions where a match starts. |
| Regex.CountWithinLength | src/features/xss_features.py:20-25 | Non-overlapping matches of a pattern whose shortest match is `n` number at most the length divided by `n`. |
| Regex.CountOfOne | src/features/xss_features.py:26-27 | Counting a one-character class is counting its occurrences. |
| Scoring.ScoreFromModel | src/api/app.py:69-115 | Fails exactly when neither entry point yields a score. A usable `predict_proba` result is the score. Otherwise a usable `predict` result is the score. A score from `predict` always lies in [0, 1], and so does a score from `predict_proba` whose table lies in [0, 1]. |
| Scoring.ProbaOutcome | src/api/app.py:75-85 | Present exactly when the model has `predict_proba`, the call returns, and its table yields a score. The score is then an entry of the table. |
| Scoring.PredictOutcome | src/api/app.py:88-112 | Present exactly when the model has `predict`, the call returns, and the prediction yields a score. The score then lies in [0, 1]. |
| Scoring.ProbaScore | src/api/app.py:76-83 | For a table of two or more columns: the entry at row 0, column 1, present exactly when there is a row. Otherwise: the single value of row 0, present exactly when row 0 holds exactly one value. The result is always an entry of the table. |
| Scoring.PredictScore | src/api/app.py:89-110 | The result is in [0, 1]. For a sequence: present exactly when the first element is a float or converts to an int. A float first element gives that float squashed. A label element gives 1.0 exactly when it is nonzero and 0.0 exactly when it is zero. A scalar gives a score exactly when it converts to a float, and the score is that float squashed. |
| Scoring.Squash | src/api/app.py:96-110 | A value in [0, 1] is kept. Any other value is replaced by the logistic function's value at it, which lies strictly inside (0, 1). |
| Scoring.ProbaTakesPriority | src/api/app.py:75-83 | A usable `predict_proba` result is the score, whatever `predict` would do. |
| Scoring.FallsThroughToPredict | src/api/app.py:84-89 | An absent, raising or unusable `predict_proba` gives the same score as a model without one. |
| Scoring.FirstElementDecides | src/api/app.py:91-92 | Only the first element of a sequence prediction affects the score. |
| Scoring.PredictExamples | src/api/app.py:93-110 | A float 0.73 is returned as is. A float -2.0 and a scalar 2.0 go through the logistic function. A label 1 gives 1.0. |
| Scoring.ProbaExample | src/api/app.py:79-80 | A one-row, two-column table [0.2, 0.8] gives 0.8. |
| Scoring.WideEntry | src/api/app.py:79-80 | In a table with a row and at least two columns, entry [0, 1] is the second stored value. |
| Scoring.Select | src/api/app.py:143 | Succeeds exactly when every requested column exists. It then returns them in the requested order. A failure names a requested column that is missing. |
| Scoring.SelectColumns | src/api/app.py:166 | Selecting the columns the extractor added, in the order they were added, returns their values. |
| Scoring.PhishingInput | src/api/app.py:140-143 | The frame handed to the phishing model has exactly the training columns, holding the row's six features in that order. |
| Scoring.XssInput | src/api/app.py:162-166 | The frame handed to the XSS model has exactly the training columns, holding the ten payload features in that order. |
| Scoring.InferenceMatchesTraining | src/api/app.py:142 | The column lists of both routes (app.py lines 142 and 164-165) equal the lists the models were trained on (src/models/train_phishing.py line 19, src/models/train_xss.py lines 34-35). |
| Scoring.UrlLabel | src/api/app.py:146 | "phishing" exactly when the score is above 0.5, otherwise "benign". |
| Scoring.XssLabel | src/api/app.py:169 | "malicious" exactly when the score is above 0.5, otherwise "clean". |
| Scoring.UrlReasons | src/api/app.py:147-153 | Each reason is present exactly when its rule fires (IP flag 1, `@` flag 1, more than 10 digits). The reasons follow rule order and nothing else is added. |
| Scoring.XssReasons | src/api/app.py:170-176 | Each reason is present exactly when its count is positive (script, event handler, `javascript:`). The reasons follow rule order and nothing else is added. |
| Service.Lookup | src/api/app.py:46-54 | One lazy load: a filled cache is returned as it is, otherwise the file is loaded or the matching error is raised. Its meaning is stated by Service.LookupKeepsCache, Service.LoadOnce and Service.MissingFileRaises. |
| Service.LookupKeepsCache | src/api/app.py:46-64 | The load succeeds exactly when the cache is filled afterwards, and the cache then holds the returned model. A filled cache is never replaced. A failure leaves the cache as it was. |
| Service.LoadOnce | src/api/app.py:46-64 | After a successful load, every later call returns the same model whatever the disk holds. After a failed load, the next call behaves as if the first never happened. |
| Service.MissingFileRaises | src/api/app.py:50-51 | With an empty cache, a missing file (for either model; lines 60-61 for the XSS one) raises "not found" for that model and the cache stays empty. |
| Service.ModelCache.constructor | src/api/app.py:40-41 | Both caches start empty. |
| Service.ModelCache.GetPhishingModel | src/api/app.py:46-54 | The new phishing cache and the result are those of one lazy load. The XSS cache is untouched. |
| Service.ModelCache.GetXssModel | src/api/app.py:56-64 | The new XSS cache and the result are those of one lazy load. The phishing cache is untouched. |
| Service.ModelCache.PredictUrl | src/api/app.py:137-157 | Succeeds exactly when the model loads and scores the URL's feature frame. A failure is the load error when the load fails, otherwise the "no usable score" error. The score is the model's score and the label follows it. Each reason appears exactly when its feature rule fires, in rule order. Only the phishing cache can change. |
| Service.ModelCache.PredictXss | src/api/app.py:159-180 | The same pipeline over the payload's features, with the XSS rules and the same two errors. Only the XSS cache can change. |
| LabelNormalizer.NormalizeLabel | src/models/train_xss.py:14-29 | A success has one label per row, each 0 or 1. |
| LabelNormalizer.NumericLabel | src/models/train_xss.py:16 | 0/1, and 1 exactly when the value is present and truncates to a nonzero integer (at least 1 or at most -1). |
| LabelNormalizer.Trunc | src/models/train_xss.py:16 | `int()` truncates toward zero, so it is nonzero exactly when the magnitude is at least 1. |
| LabelNormalizer.Strip | src/models/train_xss.py:17 | The result is a slice of the input with only whitespace cut from both ends, and it neither starts nor ends with whitespace. |
| LabelNormalizer.Canon | src/models/train_xss.py:17 | `series.astype(str).str.lower().str.strip()`: lower-cased, then cut by LabelNormalizer.Strip. Its meaning is stated by LabelNormalizer.KnownWords and LabelNormalizer.TwoValueFallback. |
| LabelNormalizer.Marks | src/models/train_xss.py:26 | One label per row. A row is 0 exactly when it holds the most frequent value, otherwise 1. |
| LabelNormalizer.LowerAll | src/models/train_xss.py:17 | `.str.lower()`: the same length, each character lower-cased in place. |
| LabelNormalizer.AllKnown | src/models/train_xss.py:20-21 | `not mapped.isnull().any()`: every normalised value is a vocabulary word. Its meaning is stated by LabelNormalizer.KnownWords and LabelNormalizer.TwoValueFallback. |
| LabelNormalizer.NumericLabels | src/models/train_xss.py:15-16 | A numeric column always succeeds. A row is 1 exactly when its value is present and at least 1 in magnitude. |
| LabelNormalizer.KnownWords | src/models/train_xss.py:17-20 | When every lower-cased, stripped value is in the vocabulary, each row gets that word's value. |
| LabelNormalizer.TwoValueFallback | src/models/train_xss.py:21-26 | With some unknown value and exactly two distinct values, a row is 0 exactly when it holds the more frequent value. This holds for known words too. |
| LabelNormalizer.FallbackMajorityIsZero | src/models/train_xss.py:22-26 | In the fallback there are at least as many 0 labels as 1 labels. |
| LabelNormalizer.UnhandledValues | src/models/train_xss.py:27-28 | With some unknown value and not exactly two distinct values, the error lists every normalised value once, strictly sorted. |
| LabelNormalizer.MostFrequent | src/models/train_xss.py:23-25 | The value occurs in the column and no value occurs more often. |
| LabelNormalizer.SortedUnique | src/models/train_xss.py:28 | Strictly sorted, holding exactly the values of the column. |
| LabelNormalizer.Unique | src/models/train_xss.py:23-24 | Holds exactly the column's values, each once, starting with the first row's value. |
| LabelNormalizer.VocabularyIsBinary | src/models/train_xss.py:18-19 | Every vocabulary word maps to 0 or 1. |
| LabelNormalizer.SortedStrictDistinct | src/models/train_xss.py:28 | A strictly increasing list, such as the sorted distinct values of the error, holds no value twice. |
| LabelNormalizer.StrLessTotal | src/models/train_xss.py:28 | Python string order is total on distinct strings. |
| LabelNormalizer.StrLessTransitive | src/models/train_xss.py:28 | Python string order is transitive. |
| CsvRepair.CleanFile | scripts/clean_xss_csv.py:6-30 | A missing input gives no output and no log. Otherwise the output is the header followed by every data line repaired, and the logged numbers are those of the repaired lines. |
| CsvRepair.Cleaned | scripts/clean_xss_csv.py:14-28 | The lines written for a file. Its meaning is stated by CsvRepair.CleanedShape, CsvRepair.CleanedEven and CsvRepair.CleanTwice. |
| CsvRepair.RepairLine | scripts/clean_xss_csv.py:20-28 | The rule for one data line. Its meaning is stated by CsvRepair.RepairLineKeeps and CsvRepair.RepairLineIdempotent. |
| CsvRepair.QuoteCount | scripts/clean_xss_csv.py:20 | `line.count('"')`: the number of `"` characters. Its meaning is stated by CsvRepair.QuoteCountZero and CsvRepair.RemoveQuotesCount. |
| CsvRepair.RemoveQuotes | scripts/clean_xss_csv.py:24 | `line.replace('"', '')`. Its meaning is stated by CsvRepair.RemoveQuotesCount and CsvRepair.RemoveQuotesAppend. |
| CsvRepair.FixedLines | scripts/clean_xss_csv.py:17-26 | The line numbers the "Fixed line" log reports, with the header as line 1. Its meaning is stated by CsvRepair.FixedLinesExactly. |
| CsvRepair.CleanedShape | scripts/clean_xss_csv.py:14-28 | The output has one line per input line (one empty header line for an empty file). The header comes first, and line i is the repair of input line i. |
| CsvRepair.CleanedEven | scripts/clean_xss_csv.py:20-28 | Every data line written has an even number of quotes. |
| CsvRepair.CleanTwice | scripts/clean_xss_csv.py:14-28 | Cleaning the cleaned output changes nothing. |
| CsvRepair.RepairLineIdempotent | scripts/clean_xss_csv.py:20-28 | A repaired line has an even number of quotes, and repairing it again changes nothing. |
| CsvRepair.RepairLineKeeps | scripts/clean_xss_csv.py:20-28 | A line is left unchanged exactly when its number of quotes is even. |
| CsvRepair.RemoveQuotesCount | scripts/clean_xss_csv.py:24 | Removing quotes leaves none behind, and shortens the line by exactly the number of quotes. |
| CsvRepair.RemoveQuotesAppend | scripts/clean_xss_csv.py:24 | Removing quotes from a concatenation is the concatenation of the pieces with quotes removed, so the other characters keep their order. |
| CsvRepair.QuoteCountZero | scripts/clean_xss_csv.py:20 | The count is zero exactly when the line has no `"`. |
| CsvRepair.FixedLinesExactly | scripts/clean_xss_csv.py:17-26 | A line number is logged exactly when that data line had an odd number of quotes (the header is line 1). The numbers are strictly increasing. |
| CsvRepair.OneStrayQuote | scripts/clean_xss_csv.py:20-25 | A single `"` between two quote-free pieces is counted once and removed, joining the pieces. |
| CsvRepair.StrayQuoteExample | scripts/clean_xss_csv.py:14-28 | A header, a line with one stray quote and a clean line: only line 2 is repaired and logged. |

## Left out

- Unicode: `\d`, `\w`, `str.isdigit`, `re.IGNORECASE` and `str.lower` are modelled on ASCII
  only. `\s` and `str.strip` are modelled as the ASCII whitespace characters plus the
  separators 28 … 31. Non-ASCII digits, letters and spaces, and Unicode case folding, are not
  modelled.
- The `tld` column of `extract_basic_features` (src/features/url_features.py:30-35, 43) is not
  modelled. It depends on `urllib.parse.urlparse`, and no later step reads it.
- Data frames are modelled as one row: a map from column name to value. Multi-row frames,
  dtypes other than "numeric" and "text", and pandas' index are left out. The routes only ever
  build one-row frames.
- `UrlFeatures.ExtractBasicFeatures` takes the URL as a string, and
  `XssFeatures.ExtractXssFeatures` takes every cell as a string. The `str(u)` and
  `astype(str)` conversions of non-string cells (NaN or None becoming "nan" or "None") are not
  modelled.
- Model loading: `joblib.load`, `Path.exists` and the directory layout are not modelled. The
  model path's state at load time is the `ModelFile` parameter.
- Models are opaque callables. The model's `predict_proba` and `predict` are parameters of the
  `Model` handle that return a value or raise.
- Floating point: scores are real numbers. NaN, infinities, float32 rounding and the overflow
  of `math.exp` are not modelled.
- The logistic function is a parameter constrained to map into (0, 1). Its exact formula is
  not modelled.
- `isinstance(first, float)` and `int(first)` are modelled by the `Elem` datatype: an element
  is a Python float, or another value that `int()` converts or raises on.
- A prediction object without `__len__` is `Scalar`. One that has `__len__` but cannot be
  indexed is modelled as an empty `Items` sequence.
- Scoring.ScoreFromModel: a `predict_proba` score is not range-checked by the source. The
  model therefore only promises [0, 1] when the table's entries lie in [0, 1].
- Scoring.Select: pandas names every missing column in its KeyError. The model reports one of
  them.
- LabelNormalizer.MostFrequent: when the two values are equally frequent, `idxmax` picks by
  the order of `value_counts`, which depends on the pandas version. The model picks the value
  that appears first.
- The HTTP layer, CORS, the `/` and `/health` routes, logging, and the conversion of every
  failure into an HTTP 500 are not modelled. A failure is returned as a `ServiceError`.
- The training scripts beyond `normalize_label` (reading the CSV, splitting, LightGBM training,
  saving) are not modelled. Only their feature column lists are used.
- CsvRepair.CleanFile: file I/O, the encoding and `errors="replace"`, and the two fixed
  messages ("Input file not found", "Wrote cleaned CSV") are not modelled. The file is given
  as its list of lines, each ending with its own line terminator. The logged "Fixed line"
  messages are modelled as the list of line numbers.
- Chars.Lower: its contract only says that a letter maps into 'a' … 'z' and that a non-capital
  is unchanged, not which lower-case letter a capital maps to.

## Notes

- `<script>alert(1)</script>` has 25 characters, so its `tags_ratio` is 2/26.
- `normalize_label` applies the two-value fallback as soon as any normalised value is missing
  from the vocabulary. It then relabels every row, including rows with known words.
