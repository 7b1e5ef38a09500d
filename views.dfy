/**
 * The analysis endpoint after request validation: clean the comments, score
 * and cluster the cleaned texts, and zip the results into `items` and a
 * `summary`.
 */
module Views {
  import opened Wrappers
  import TextPreprocess
  import Sentiment
  import Aspects

  /** The validated `options`; an absent key is `None`. */
  datatype Options = Options(
    numAspectClusters: Option<int>,
    useTransformers: Option<bool>,
    clusteringAlgorithm: Option<string>)

  datatype Item = Item(text: string, sentiment: Sentiment.SentimentResult, clusterId: Option<int>)

  datatype Aspect = Aspect(clusterId: int, keywords: seq<string>, size: int)

  datatype Summary = Summary(nComments: int, nClusters: int, aspects: seq<Aspect>)

  datatype Response = Response(summary: Summary, items: seq<Item>)

  /** `int(None)` raises `TypeError`, which the framework turns into a server error. */
  datatype PostError = ClusterIdNotInteger

  /** `options.get('num_aspect_clusters', 5)`. */
  function NumAspectClusters(options: Options): (n: int)
    ensures options.numAspectClusters.None? ==> n == 5
    ensures options.numAspectClusters.Some? ==> n == options.numAspectClusters.value
  {
    options.numAspectClusters.GetOr(5)
  }

  // ---------------------------------------------------------------------------
  // The cluster id of an item (line 53)
  // ---------------------------------------------------------------------------

  /**
   * The `cluster_id` expression as written: the guard tests the labels list,
   * which is never `None`, so `int(...)` is applied to every label, and a
   * `None` label raises.
   */
  function ClusterIdAsWritten(labels: seq<Option<int>>, i: nat): (r: Result<Option<int>, PostError>)
    requires i < |labels|
    ensures r.Err? <==> labels[i].None?
    ensures r.Ok? ==> r.value == labels[i]
  {
    match labels[i]
    case Some(c) => Ok(Some(c))
    case None => Err(ClusterIdNotInteger)
  }

  /**
   * As written, the items loop of a non-empty request raises exactly when
   * clustering came back empty: labels are all present or all `None`.
   */
  lemma AsWrittenRaisesIffUnclustered(texts: seq<string>, nClusters: int, learners: Aspects.Learners)
    requires Aspects.LearnersValid(learners) && |texts| > 0
    ensures
      var clusters := Aspects.Cluster(texts, nClusters, learners);
      (exists j :: 0 <= j < |texts| && ClusterIdAsWritten(clusters.labels, j).Err?) <==> clusters.nClusters == 0
  {
    var clusters := Aspects.Cluster(texts, nClusters, learners);
    if clusters.nClusters == 0 {
      assert ClusterIdAsWritten(clusters.labels, 0).Err?;
    }
  }

  /** As written, a request with a single comment always raises: its clustering is degenerate. */
  lemma SingleCommentFails(comment: string, options: Options, learners: Aspects.Learners)
    requires Aspects.LearnersValid(learners)
    ensures
      var clusters := Aspects.Cluster(TextPreprocess.PreprocessBatch([comment]), NumAspectClusters(options), learners);
      clusters.nClusters == 0 && ClusterIdAsWritten(clusters.labels, 0).Err?
  {
  }

  /** The evidently intended expression: an unclustered text gets a null `cluster_id`. */
  function ClusterIdIntended(labels: seq<Option<int>>, i: nat): (r: Option<int>)
    requires i < |labels|
    ensures ClusterIdAsWritten(labels, i).Ok? ==> r == ClusterIdAsWritten(labels, i).value
    ensures ClusterIdAsWritten(labels, i).Err? ==> r.None?
  {
    labels[i]
  }

  // ---------------------------------------------------------------------------
  // Items and summary
  // ---------------------------------------------------------------------------

  /** `zip(cluster_ids, keywords, sizes)`: stops at the shortest list. */
  function ZipAspects(ids: seq<int>, keywords: seq<seq<string>>, sizes: seq<int>): (r: seq<Aspect>)
    ensures |r| <= |ids| && |r| <= |keywords| && |r| <= |sizes|
    ensures |r| == |ids| || |r| == |keywords| || |r| == |sizes|
    ensures forall i :: 0 <= i < |r| ==> r[i] == Aspect(ids[i], keywords[i], sizes[i])
  {
    if ids == [] || keywords == [] || sizes == [] then []
    else [Aspect(ids[0], keywords[0], sizes[0])] + ZipAspects(ids[1..], keywords[1..], sizes[1..])
  }

  /**
   * The `summary` dictionary: the comment and cluster counts, and one aspect
   * per entry of the shortest of the id, keyword and size lists.
   */
  function Summarize(nComments: int, clusters: Aspects.ClusterResult): (s: Summary)
    ensures s.nComments == nComments && s.nClusters == clusters.nClusters
    ensures |s.aspects| <= |clusters.clusterIds| && |s.aspects| <= |clusters.keywords| && |s.aspects| <= |clusters.sizes|
    ensures |s.aspects| == |clusters.clusterIds| || |s.aspects| == |clusters.keywords| || |s.aspects| == |clusters.sizes|
    ensures forall a :: 0 <= a < |s.aspects| ==>
      s.aspects[a] == Aspect(clusters.clusterIds[a], clusters.keywords[a], clusters.sizes[a])
  {
    Summary(nComments, clusters.nClusters, ZipAspects(clusters.clusterIds, clusters.keywords, clusters.sizes))
  }

  /** The items: each comment with its sentiment and its cluster id, null when it has none. */
  function IntendedItems(comments: seq<string>, sentiments: seq<Sentiment.SentimentResult>, labels: seq<Option<int>>): (items: seq<Item>)
    requires |sentiments| == |comments| && |labels| == |comments|
    ensures |items| == |comments|
    ensures forall i :: 0 <= i < |comments| ==> items[i].text == comments[i] && items[i].sentiment == sentiments[i]
    ensures forall i :: 0 <= i < |comments| ==> items[i].clusterId == labels[i]
  {
    seq(|comments|, i requires 0 <= i < |comments| => Item(comments[i], sentiments[i], ClusterIdIntended(labels, i)))
  }

  /** How many items carry cluster id `c`. */
  function ItemCount(items: seq<Item>, c: int): nat {
    if items == [] then 0 else (if items[0].clusterId == Some(c) then 1 else 0) + ItemCount(items[1..], c)
  }

  lemma {:induction false} ItemCountIsLabelCount(items: seq<Item>, labels: seq<Option<int>>, c: int)
    requires |items| == |labels|
    requires forall i :: 0 <= i < |items| ==> items[i].clusterId == labels[i]
    ensures ItemCount(items, c) == Aspects.CountLabel(labels, c)
  {
    if items != [] {
      ItemCountIsLabelCount(items[1..], labels[1..], c);
    }
  }

  /**
   * The response agrees with its summary, for any result shaped as `cluster`
   * promises: every id an item carries is the id of an aspect, and each
   * aspect's size is the number of items carrying its id.
   */
  lemma SummaryMatchesItems(clusters: Aspects.ClusterResult, items: seq<Item>)
    requires |items| == |clusters.labels|
    requires forall i :: 0 <= i < |items| ==> items[i].clusterId == clusters.labels[i]
    requires clusters.nClusters == 0 ==> Aspects.IsEmptyResult(clusters)
    requires clusters.nClusters != 0 ==>
      && clusters.nClusters > 0
      && clusters.clusterIds == Aspects.Range(clusters.nClusters)
      && (forall i :: 0 <= i < |items| ==> clusters.labels[i].Some? && 0 <= clusters.labels[i].value < clusters.nClusters)
      && |clusters.keywords| == clusters.nClusters
      && |clusters.sizes| == clusters.nClusters
      && (forall c :: 0 <= c < clusters.nClusters ==> clusters.sizes[c] == Aspects.CountLabel(clusters.labels, c))
    ensures
      var aspects := Summarize(|items|, clusters).aspects;
      && |aspects| == clusters.nClusters
      && (forall i :: 0 <= i < |items| && items[i].clusterId.Some? ==>
            var c := items[i].clusterId.value; 0 <= c < |aspects| && aspects[c].clusterId == c)
      && (forall a :: 0 <= a < |aspects| ==> aspects[a].size == ItemCount(items, aspects[a].clusterId))
  {
    var aspects := Summarize(|items|, clusters).aspects;
    if clusters.nClusters != 0 {
      forall a | 0 <= a < |aspects| ensures aspects[a].size == ItemCount(items, aspects[a].clusterId) {
        ItemCountIsLabelCount(items, clusters.labels, a);
      }
    }
  }

  /** The same agreement for the clustering of an actual batch, the degenerate case included. */
  lemma IntendedItemsMatchSummary(
    comments: seq<string>, sentiments: seq<Sentiment.SentimentResult>, nClusters: int, learners: Aspects.Learners)
    requires Aspects.LearnersValid(learners) && |sentiments| == |comments|
    ensures
      var clusters := Aspects.Cluster(TextPreprocess.PreprocessBatch(comments), nClusters, learners);
      var items := IntendedItems(comments, sentiments, clusters.labels);
      var aspects := Summarize(|comments|, clusters).aspects;
      && |aspects| == clusters.nClusters
      && (forall i :: 0 <= i < |items| && items[i].clusterId.Some? ==>
            var c := items[i].clusterId.value; 0 <= c < |aspects| && aspects[c].clusterId == c)
      && (forall a :: 0 <= a < |aspects| ==> aspects[a].size == ItemCount(items, aspects[a].clusterId))
  {
    var clusters := Aspects.Cluster(TextPreprocess.PreprocessBatch(comments), nClusters, learners);
    SummaryMatchesItems(clusters, IntendedItems(comments, sentiments, clusters.labels));
  }

  // ---------------------------------------------------------------------------
  // post
  // ---------------------------------------------------------------------------

  /** Lines 48-65 of `post`: the items loop, then the summary. */
  method Respond(comments: seq<string>, sentiments: seq<Sentiment.SentimentResult>, clusters: Aspects.ClusterResult)
    returns (r: Response)
    requires |sentiments| == |comments| && |clusters.labels| == |comments|
    ensures r.items == IntendedItems(comments, sentiments, clusters.labels)
    ensures r.summary == Summarize(|comments|, clusters)
  {
    var labels := clusters.labels;
    var items: seq<Item> := [];
    for i := 0 to |comments|
      invariant items == IntendedItems(comments[..i], sentiments[..i], labels[..i])
    {
      items := items + [Item(comments[i], sentiments[i], ClusterIdIntended(labels, i))];
    }
    assert comments[..|comments|] == comments && sentiments[..|comments|] == sentiments && labels[..|comments|] == labels;
    var summary := Summarize(|comments|, clusters);
    r := Response(summary, items);
  }

  /**
   * `CommentsAnalysisView.post` from the validated payload on, with the
   * intended cluster id. Item i holds comment i, the sentiment of its cleaned
   * text under the backend the global setting selects, and its cluster label;
   * the summary has one aspect per cluster, and agrees with the items. The
   * `use_transformers` and `clustering_algorithm` options are never read.
   */
  method Post(
    comments: seq<string>, options: Options, settingsUseTransformers: bool,
    caps: Sentiment.Capabilities, engines: Sentiment.Engines, learners: Aspects.Learners)
    returns (r: Response)
    requires Sentiment.EnginesValid(engines) && Aspects.LearnersValid(learners)
    ensures
      var cleaned := TextPreprocess.PreprocessBatch(comments);
      var clusters := Aspects.Cluster(cleaned, NumAspectClusters(options), learners);
      var backend := Sentiment.SelectBackend(settingsUseTransformers, caps);
      && |r.items| == |comments|
      && (forall i :: 0 <= i < |comments| ==>
            r.items[i] == Item(comments[i], Sentiment.Predict(backend, cleaned[i], engines), clusters.labels[i]))
      && r.summary == Summarize(|comments|, clusters)
      && |r.summary.aspects| == clusters.nClusters
      && (forall a :: 0 <= a < |r.summary.aspects| ==>
            r.summary.aspects[a].size == ItemCount(r.items, r.summary.aspects[a].clusterId))
  {
    var cleaned := TextPreprocess.PreprocessBatch(comments);
    var analyzer := new Sentiment.SentimentAnalyzer(settingsUseTransformers, caps);
    var sentiments := analyzer.BatchPredict(cleaned, engines);
    var clusters := Aspects.Cluster(cleaned, NumAspectClusters(options), learners);
    ghost var backend := Sentiment.SelectBackend(settingsUseTransformers, caps);
    assert analyzer.Active() == backend;
    r := Respond(comments, sentiments, clusters);
    IntendedItemsMatchSummary(comments, sentiments, NumAspectClusters(options), learners);
    forall i | 0 <= i < |comments|
      ensures r.items[i] == Item(comments[i], Sentiment.Predict(backend, cleaned[i], engines), clusters.labels[i])
    {
      assert sentiments[i] == analyzer.PredictOne(cleaned[i], engines);
      assert r.items[i].text == comments[i] && r.items[i].sentiment == sentiments[i];
      assert r.items[i].clusterId == clusters.labels[i];
    }
  }
}
