# YouTube comment analyser: a Dafny model of the analysis core

The service takes a batch of comments and answers with one item per comment
plus a summary. Each item holds the original text, a sentiment label with a
score, and the comment's aspect cluster. The summary holds the number of
comments, the number of clusters, and each cluster's id, top keywords and
size. This project models the four steps of that pipeline and proves
properties of each:

- **`TextPreprocess`** (`text_preprocess.dfy`). Cleaning the text: strip it,
  lowercase it, replace every URL (`https?://\S+`) and every `@mention`
  (`@\w+`) by a space, and collapse whitespace runs. Each `re.sub` is a
  left-to-right scanner with greedy matches. The proofs show:
  - the result is lowercase and contains no URL and no mention;
  - its only whitespace is single plain spaces;
  - clean text is a fixed point;
  - the pipeline is not idempotent.
- **`Sentiment`** (`sentiment.dfy`). The `SentimentAnalyzer` class. Its
  constructor settles the backend once: the transformer classifier if it was
  requested, is installed and its model loads; otherwise VADER if it is
  installed; otherwise a constant neutral answer. `PredictOne` and
  `BatchPredict` apply that backend. The proofs show:
  - `_softmax` yields a probability vector ordered like the logits, so the
    transformer's label is the class of the largest logit, with a score of at
    least 1/3;
  - the VADER branch gives `positive` exactly when `compound >= 0.05` and
    `negative` exactly when `compound <= -0.05`, with scores in [0, 1].
- **`Aspects`** (`aspects.dfy`). `AspectClusterer.cluster` and
  `_top_terms_per_cluster`. Every degenerate or failing path (no
  scikit-learn, fewer than two texts, an exception while fitting) gives the
  same empty result. Otherwise the result has `k = max(2, min(n, docs))`
  clusters with dense ids. Every text gets a label in [0, k). Each cluster
  gets the terms of its centroid's largest weights and its size, and the sizes
  add up to the number of texts. `TopTermsPerCluster` keeps the source's loop
  and is proved against the specification function `Keywords`.
- **`Views`** (`views.dfy`). The body of `CommentsAnalysisView.post` after
  request validation. It runs preprocessing, sentiment and clustering. Then it
  zips the results into items and a summary. It uses the corrected cluster id
  (see Findings): a comment without a cluster gets a null id, and the request
  does not fail.

Foreign code is passed in as parameters that carry only what the libraries
guarantee:
- `Sentiment.Engines` gives VADER's compound score in [-1, 1], three logits
  per text, and a positive, increasing `exp`. `Sentiment.Capabilities` gives
  the import probes and whether model loading succeeds.
- `Aspects.Learners` gives the TF-IDF vectoriser and k-means, each returning
  `None` where it would raise. They produce one matrix row per text, one label
  in [0, k) per row, and k centroids over the vocabulary.

Three points of the code's behaviour that the model keeps as they are:
- Keywords are the top five terms by centroid weight. Zero or negative
  weights are not filtered out.
- The clusterer returns labels, ids, keywords, sizes and a cluster count, and
  nothing else: no representative comments per cluster.
- The `use_transformers` and `clustering_algorithm` options are accepted but
  never read. The global setting alone chooses the sentiment backend, and
  k-means is the only algorithm.

## Model

| member | source | states |
|---|---|---|
| TextPreprocess.StripLeft | analysis/services/text_preprocess.py:9 | the result is a suffix of the input, everything dropped is whitespace, and the result does not start with whitespace |
| TextPreprocess.StripRight | analysis/services/text_preprocess.py:9 | the result is a prefix of the input, everything dropped is whitespace, and the result does not end with whitespace |
| TextPreprocess.StripEnds | analysis/services/text_preprocess.py:9 | neither end of the stripped text is whitespace |
| TextPreprocess.StripKeeps | analysis/services/text_preprocess.py:9 | text with no whitespace at either end is returned unchanged by `strip()` |
| TextPreprocess.LowerStrLowercase | analysis/services/text_preprocess.py:9 | lowering keeps the length, gives lowercase text, and leaves lowercase text as it is |
| TextPreprocess.UrlEnd | analysis/services/text_preprocess.py:3 | the greedy match of `https?://\S+` begins with `http://` or `https://` followed by at least one character, holds no whitespace, and ends at the end of the text or at a whitespace character |
| TextPreprocess.MentionEnd | analysis/services/text_preprocess.py:4 | the greedy match of `@\w+` is `@` and at least one word character, and ends at the end of the text or at a non-word character |
| TextPreprocess.SubUrls | analysis/services/text_preprocess.py:10 | the URL substitution never lengthens the text |
| TextPreprocess.SubMentions | analysis/services/text_preprocess.py:11 | the mention substitution never lengthens the text |
| TextPreprocess.CollapseSpaces | analysis/services/text_preprocess.py:12 | collapsing whitespace never lengthens the text |
| TextPreprocess.SubUrlsKeepsLower | analysis/services/text_preprocess.py:10 | the URL substitution keeps lowercase text lowercase |
| TextPreprocess.SubMentionsKeepsLower | analysis/services/text_preprocess.py:11 | the mention substitution keeps lowercase text lowercase |
| TextPreprocess.CollapseKeepsLower | analysis/services/text_preprocess.py:12 | collapsing whitespace keeps lowercase text lowercase |
| TextPreprocess.SubUrlsClears | analysis/services/text_preprocess.py:10 | after the URL substitution no position starts a URL |
| TextPreprocess.SubMentionsClears | analysis/services/text_preprocess.py:11 | after the mention substitution no position starts a mention |
| TextPreprocess.SubMentionsKeeps | analysis/services/text_preprocess.py:11 | the mention substitution does not create a URL or mention where the input had none |
| TextPreprocess.CollapseKeeps | analysis/services/text_preprocess.py:12 | collapsing whitespace does not join pieces into a new URL or mention |
| TextPreprocess.CollapseShape | analysis/services/text_preprocess.py:12 | after collapsing, each whitespace character is a single plain space, and a non-space first character is kept |
| TextPreprocess.PreprocessText | analysis/services/text_preprocess.py:7-13 | a cleaned text is lowercase, contains no URL and no mention, and its only whitespace is single plain spaces |
| TextPreprocess.PreprocessBatch | analysis/services/text_preprocess.py:16-17 | one cleaned text per input, in order, each lowercase and free of URLs, mentions and whitespace runs |
| TextPreprocess.CleanTextIsFixedPoint | analysis/services/text_preprocess.py:7-13 | lowercase, stripped text without URLs, mentions or whitespace runs is returned unchanged |
| TextPreprocess.LeadingUrlLeavesSpace | analysis/services/text_preprocess.py:9-10 | a URL at the start of the stripped text, in any letter case, is removed, and the result then begins with a space, because stripping runs before the substitutions |
| TextPreprocess.TrailingUrlLeavesSpace | analysis/services/text_preprocess.py:9-12 | when the stripped, lowered text is any character, a space and a URL without whitespace, the result is that character followed by a space, because stripping runs before the substitutions |
| TextPreprocess.NotIdempotent | analysis/services/text_preprocess.py:7-13 | cleaning `HTTP://x` gives a single space, and cleaning that space gives the empty string |
| Sentiment.SelectBackend | analysis/services/sentiment.py:21-39 | the transformer exactly when it is requested, importable and its model loads; VADER exactly when that fails and VADER is importable; the constant fallback exactly when both fail |
| Sentiment.UnusableTransformerIsUnrequested | analysis/services/sentiment.py:21-39 | when the transformer library is missing or its model fails to load, requesting it selects the same backend as not requesting it |
| Sentiment.SentimentAnalyzer.constructor | analysis/services/sentiment.py:21-39 | `use_transformers` holds only if it was requested, the library is installed and the model loads; readiness then equals it; `vader` is unset on the transformer path and otherwise holds the analyzer or `None`; the active backend is the fallback chain |
| Sentiment.SentimentAnalyzer.Active | analysis/services/sentiment.py:48-57 | the transformer exactly when `use_transformers` and `_transformers_ready` both hold; otherwise VADER exactly when the analyzer is present; otherwise the fallback |
| Sentiment.SentimentAnalyzer.PredictOne | analysis/services/sentiment.py:47-69 | the prediction under the active backend: with `use_transformers` set, the class of the first largest logit with a score of at least 1/3; otherwise VADER's mapping of the compound when the analyzer is present, and neutral 0.5 when it is `None`; every score in [0, 1] |
| Sentiment.SentimentAnalyzer.BatchPredict | analysis/services/sentiment.py:71-72 | one result per text, in order, each the prediction for that text |
| Sentiment.Predict | analysis/services/sentiment.py:47-69 | every score lies in [0, 1]; the transformer's label is the class of the first largest logit, its score is that class's softmax probability, and it is at least 1/3; the VADER path is the VADER mapping of the compound score; the fallback is neutral with 0.5 |
| Sentiment.VaderResult | analysis/services/sentiment.py:57-66 | positive exactly when compound >= 0.05, negative exactly when compound <= -0.05; polar scores are (1 + abs(c)) / 2, at least 0.525; neutral scores are 1 - abs(c), above 0.95; all in [0, 1] |
| Sentiment.VaderSymmetric | analysis/services/sentiment.py:61-64 | negating a polar compound swaps positive for negative and keeps the score |
| Sentiment.TransformerResult | analysis/services/sentiment.py:53-55 | the label is the class of the first largest probability and the score is that probability, which bounds every other |
| Sentiment.MaxOf | analysis/services/sentiment.py:42 | `max(x)` is an element of `x` and bounds every element |
| Sentiment.ArgMax | analysis/services/sentiment.py:54 | the index of the first largest element |
| Sentiment.ArgMaxSameOrder | analysis/services/sentiment.py:52-54 | sequences ordered alike have the same first largest index, so the argmax of the probabilities is the argmax of the logits |
| Sentiment.Shifted | analysis/services/sentiment.py:42-43 | the shifted exponentials are positive and ordered like the inputs |
| Sentiment.Softmax | analysis/services/sentiment.py:41-45 | every entry lies in (0, 1], the entries sum to 1, and they are ordered exactly like the logits |
| Sentiment.Normalised | analysis/services/sentiment.py:44-45 | dividing positive numbers by their sum gives a probability vector ordered like the numbers |
| Sentiment.MaxAtLeastThird | analysis/services/sentiment.py:54-55 | the largest of three probabilities that sum to 1 is at least 1/3 |
| Aspects.EmptyResult | analysis/services/aspects.py:23-30 | the degenerate result: one `None` label per text, no ids, keywords or sizes, and zero clusters |
| Aspects.Range | analysis/services/aspects.py:42 | `range(k)` lists 0..k-1 in order, and exactly those values |
| Aspects.ClampClusters | analysis/services/aspects.py:34 | k >= 2, k never exceeds the number of documents when there are at least two, a request in [2, docs] is kept, a larger one is cut to docs, and a smaller one is raised to 2 |
| Aspects.Sizes | analysis/services/aspects.py:39 | entry c counts the labels equal to c, and the entries sum to the number of labels in [0, k) |
| Aspects.Labelled | analysis/services/aspects.py:41 | one present label per fitted label, in order |
| Aspects.CountLabelled | analysis/services/aspects.py:39-41 | counting a cluster among the returned labels equals counting it among the fitted labels |
| Aspects.CountBelowAll | analysis/services/aspects.py:36-39 | when every label lies in [0, k), the count of labels in range is the number of texts |
| Aspects.InsertDescending | analysis/services/aspects.py:14 | inserting one index keeps the list sorted by descending weight and without duplicates, and adds exactly that index |
| Aspects.DescendingOrder | analysis/services/aspects.py:14 | `argsort()[::-1]` lists every index of the row exactly once, from largest weight to smallest |
| Aspects.TopIndices | analysis/services/aspects.py:17 | `min(top_n, F)` distinct indices in non-increasing weight, and no index left out weighs more than a chosen one |
| Aspects.ClusterKeywords | analysis/services/aspects.py:17 | the keywords of one cluster: `min(top_n, F)` terms of the vocabulary where keyword a is the term of the a-th heaviest centroid weight, the chosen indices are distinct and in non-increasing weight, and no index left out weighs more than one chosen |
| Aspects.Keywords | analysis/services/aspects.py:11-19 | one keyword list per cluster, each of `min(top_n, F)` terms naming, heaviest first, the distinct indices of that cluster's centroid that no left-out index outweighs |
| Aspects.TopTermsPerCluster | analysis/services/aspects.py:11-19 | the loop builds exactly the keyword lists `Keywords` specifies, cluster by cluster |
| Aspects.Cluster | analysis/services/aspects.py:22-54 | one label per text; the result is empty exactly when scikit-learn is missing, there are fewer than two texts or fitting raises; otherwise k lies between 2 and the number of texts, a request n >= 2 gives k = min(n, number of texts), ids are 0..k-1, every label lies in [0, k), there are k keyword lists of at most 5 terms, sizes[c] counts the texts labelled c, and the sizes sum to the number of texts |
| Aspects.FittedResult | analysis/services/aspects.py:36-46 | the success dictionary has the fitted labels, ids 0..k-1, at most five keywords per cluster, and sizes that count the labels and sum to the number of texts |
| Aspects.ClusterFitted | analysis/services/aspects.py:33-46 | on success, k is the clamped request, the labels are k-means' labels, the sizes count them, and the keywords are those of the centroids |
| Aspects.FailureMatchesGuard | analysis/services/aspects.py:23-54 | an exception while fitting yields exactly the result of the degenerate-input guard |
| Views.NumAspectClusters | analysis/views.py:45 | the requested cluster count, or 5 when the option is absent |
| Views.ClusterIdAsWritten | analysis/views.py:53 | as written, the cluster id raises exactly when the text's label is `None`, and otherwise is that label |
| Views.AsWrittenRaisesIffUnclustered | analysis/views.py:48-54 | as written, the items loop of a non-empty request raises exactly when clustering came back empty |
| Views.SingleCommentFails | analysis/views.py:53 | as written, a request with a single comment always gets zero clusters, so its cluster id raises |
| Views.ClusterIdIntended | analysis/views.py:53 | the intended cluster id equals the written one whenever that one does not raise, and is null where it would raise |
| Views.ZipAspects | analysis/views.py:59-64 | `zip` stops at the shortest list, and aspect i pairs the i-th id, keyword list and size |
| Views.Summarize | analysis/views.py:56-65 | the comment count and cluster count as given, and aspect i pairs the i-th id, keyword list and size, for exactly as many aspects as the shortest of the three lists |
| Views.IntendedItems | analysis/views.py:48-54 | each item keeps its comment and sentiment, and carries the comment's label, or a null id when the label is `None` |
| Views.ItemCountIsLabelCount | analysis/views.py:48-54 | counting items by cluster id equals counting the clusterer's labels |
| Views.SummaryMatchesItems | analysis/views.py:48-65 | for any result shaped as `cluster` promises, every id an item carries is an aspect's id, and each aspect's size is the number of items carrying its id |
| Views.IntendedItemsMatchSummary | analysis/views.py:39-65 | the same agreement between items and summary for the clustering of an actual batch, the degenerate case included |
| Views.Respond | analysis/views.py:48-65 | the items loop and the summary build exactly the intended items and the zipped cluster data |
| Views.Post | analysis/views.py:39-65 | item i holds comment i, the sentiment of cleaned text i under the backend the global setting selects, and label i; the summary has one aspect per cluster, and each aspect's size is the number of items carrying its id |

## Left out

- Tokenisation, TF-IDF weighting and k-means itself are scikit-learn internals. They are parameters constrained only by the shapes they return. The seed `random_state=42` makes k-means a function of its inputs, which is what a parameter assumes.
- Transformer inference (tokeniser, model, `torch.no_grad`, truncation) is a parameter giving three logits per text. VADER's `polarity_scores` is a parameter giving a compound score in [-1, 1]. Both run in external libraries.
- `math.exp` is a parameter assumed positive and increasing. Floating point is modelled by exact reals, so rounding in `_softmax` and in the VADER scores is not modelled.
- The tokenizer and model objects the constructor stores are not modelled. The constructor keeps only the fields that choose the backend.
- Importing the libraries and loading the model are `Capabilities` flags, as are network access and weight caching.
- `\w` and `str.lower()` are modelled for ASCII only. Python applies them to all of Unicode. Whitespace follows Python's full `str.isspace` set.
- Aspects.DescendingOrder: among equal centroid weights it puts the higher index first. numpy's default argsort does not fix an order for ties, so the model picks one.
- Request parsing and validation (serializers), the HTTP response, the settings module and URL routing are outside the model. The validated payload, the `USE_TRANSFORMERS` setting and the library capabilities are parameters. The serializer demands at least one comment, which the model does not need.
- The `clusters.get(..., 0)` and `clusters.get(..., [])` defaults in the summary are never used: every result of `cluster` has all five keys.
- Any other exception the framework would turn into a server error is not modelled. Only the `int(None)` failure is.

## Findings

| source | as written | input that shows it | evidently intended | confidence | as-written member | corrected member |
|---|---|---|---|---|---|---|
| analysis/views.py:53 | `int(clusters['labels'][i]) if clusters['labels'] is not None else None` tests the whole labels list, which is never `None`, so `int(None)` raises `TypeError` for every text the clusterer left without a label | a request with one comment, or any request when scikit-learn is missing or fitting raises: the labels are all `None` and the request fails with a server error | a text without a cluster gets `cluster_id: null` | not executed | Views.ClusterIdAsWritten, Views.SingleCommentFails | Views.ClusterIdIntended, Views.IntendedItems, Views.IntendedItemsMatchSummary |
