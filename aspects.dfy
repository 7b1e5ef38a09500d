/**
 * The aspect clusterer: TF-IDF vectors, k-means, and a result dictionary of
 * per-text labels, dense cluster ids, top keywords and sizes, with one empty
 * result for every degenerate or failing case.
 *
 * scikit-learn is a parameter (`Learners`): the vectoriser and k-means are
 * functions of their inputs (k-means runs with a fixed seed), and `None`
 * stands for an exception raised inside them.
 */
module Aspects {
  import opened Wrappers

  /** A fitted TF-IDF model: one weight row per document, and the vocabulary (`get_feature_names_out()`). */
  datatype Tfidf = Tfidf(matrix: seq<seq<real>>, terms: seq<string>)

  /** A fitted k-means model: the label of each row, and one centroid over the vocabulary per cluster. */
  datatype KMeansFit = KMeansFit(labels: seq<int>, centers: seq<seq<real>>)

  /**
   * `_HAS_SK`; `TfidfVectorizer(min_df=1, max_df=0.9, ngram_range=(1,2)).fit_transform`;
   * `KMeans(n_clusters=k, n_init='auto', random_state=42).fit_predict`.
   */
  datatype Learners = Learners(
    hasSklearn: bool,
    vectorize: seq<string> -> Option<Tfidf>,
    kmeans: (Tfidf, int) -> Option<KMeansFit>)

  /** k-means returns one label in [0, k) per row and a k-by-F matrix of centroids. */
  ghost predicate FitShape(fit: KMeansFit, rows: int, k: int, features: int) {
    && |fit.labels| == rows
    && (forall i :: 0 <= i < |fit.labels| ==> 0 <= fit.labels[i] < k)
    && |fit.centers| == k
    && (forall c :: 0 <= c < |fit.centers| ==> |fit.centers[c]| == features)
  }

  /** What scikit-learn guarantees of its results when it returns. */
  ghost predicate LearnersValid(l: Learners) {
    && (forall texts :: l.vectorize(texts).Some? ==> |l.vectorize(texts).value.matrix| == |texts|)
    && (forall x, k :: l.kmeans(x, k).Some? ==>
          FitShape(l.kmeans(x, k).value, |x.matrix|, k, |x.terms|))
  }

  /** The dictionary `cluster` returns. */
  datatype ClusterResult = ClusterResult(
    labels: seq<Option<int>>,
    clusterIds: seq<int>,
    keywords: seq<seq<string>>,
    sizes: seq<int>,
    nClusters: int)

  /** The result of the guard and of the exception handler. */
  function EmptyResult(n: nat): (r: ClusterResult)
    ensures IsEmptyResult(r) && |r.labels| == n
  {
    ClusterResult(seq(n, _ => None), [], [], [], 0)
  }

  predicate IsEmptyResult(r: ClusterResult) {
    && (forall i :: 0 <= i < |r.labels| ==> r.labels[i].None?)
    && r.clusterIds == [] && r.keywords == [] && r.sizes == [] && r.nClusters == 0
  }

  function Range(k: nat): (r: seq<nat>)
    ensures |r| == k
    ensures forall i :: 0 <= i < k ==> r[i] == i
    ensures forall x :: x in r <==> 0 <= x < k
  {
    if k == 0 then [] else Range(k - 1) + [k - 1]
  }

  // ---------------------------------------------------------------------------
  // The number of clusters
  // ---------------------------------------------------------------------------

  /** `max(2, min(n_clusters, n_docs))`: the request, clamped to [2, n_docs]. */
  function ClampClusters(requested: int, docs: int): (k: int)
    ensures k >= 2
    ensures docs >= 2 ==> k <= docs
    ensures 2 <= requested <= docs ==> k == requested
    ensures requested > docs >= 2 ==> k == docs
    ensures requested < 2 ==> k == 2
  {
    var m := if requested < docs then requested else docs;
    if m < 2 then 2 else m
  }

  // ---------------------------------------------------------------------------
  // Sizes
  // ---------------------------------------------------------------------------

  /** `(labels == c).sum()`. */
  function Count(labels: seq<int>, c: int): nat {
    if labels == [] then 0 else (if labels[0] == c then 1 else 0) + Count(labels[1..], c)
  }

  /** How many labels lie in [0, k). */
  function CountBelow(labels: seq<int>, k: int): nat {
    if labels == [] then 0 else (if 0 <= labels[0] < k then 1 else 0) + CountBelow(labels[1..], k)
  }

  function SumInts(s: seq<int>): int {
    if s == [] then 0 else SumInts(s[..|s| - 1]) + s[|s| - 1]
  }

  /**
   * `[int((labels == i).sum()) for i in range(k)]`: entry c counts the labels
   * equal to c, so together the entries count the labels that lie in [0, k).
   */
  function Sizes(labels: seq<int>, k: nat): (r: seq<int>)
    ensures |r| == k
    ensures forall c :: 0 <= c < k ==> r[c] == Count(labels, c)
    ensures SumInts(r) == CountBelow(labels, k)
  {
    if k == 0 then
      CountBelowNone(labels);
      []
    else
      var r := Sizes(labels, k - 1) + [Count(labels, k - 1)];
      assert r[..k - 1] == Sizes(labels, k - 1);
      CountBelowSplit(labels, k);
      r
  }

  /** How many of the optional labels are `Some(c)`. */
  function CountLabel(labels: seq<Option<int>>, c: int): nat {
    if labels == [] then 0 else (if labels[0] == Some(c) then 1 else 0) + CountLabel(labels[1..], c)
  }

  /** `labels.tolist()`, as optional labels. */
  function Labelled(labels: seq<int>): (r: seq<Option<int>>)
    ensures |r| == |labels|
    ensures forall i :: 0 <= i < |labels| ==> r[i] == Some(labels[i])
  {
    seq(|labels|, i requires 0 <= i < |labels| => Some(labels[i]))
  }

  lemma {:induction false} CountLabelled(labels: seq<int>)
    ensures forall c :: CountLabel(Labelled(labels), c) == Count(labels, c)
  {
    if labels != [] {
      CountLabelled(labels[1..]);
      assert Labelled(labels)[1..] == Labelled(labels[1..]);
    }
  }

  lemma {:induction false} CountBelowSplit(labels: seq<int>, k: int)
    requires k >= 1
    ensures CountBelow(labels, k) == CountBelow(labels, k - 1) + Count(labels, k - 1)
  {
    if labels != [] {
      CountBelowSplit(labels[1..], k);
    }
  }

  lemma {:induction false} CountBelowNone(labels: seq<int>)
    ensures CountBelow(labels, 0) == 0
  {
    if labels != [] {
      CountBelowNone(labels[1..]);
    }
  }

  lemma {:induction false} CountBelowAll(labels: seq<int>, k: int)
    requires forall i :: 0 <= i < |labels| ==> 0 <= labels[i] < k
    ensures CountBelow(labels, k) == |labels|
  {
    if labels != [] {
      CountBelowAll(labels[1..], k);
    }
  }

  // ---------------------------------------------------------------------------
  // Top terms per centroid
  // ---------------------------------------------------------------------------

  /** `s` lists indices of `row` from largest weight to smallest. */
  ghost predicate DescendingBy(row: seq<real>, s: seq<nat>) {
    && (forall a :: 0 <= a < |s| ==> s[a] < |row|)
    && (forall a, b :: 0 <= a < b < |s| ==> row[s[a]] >= row[s[b]])
  }

  ghost predicate Distinct(s: seq<nat>) {
    forall a, b :: 0 <= a < b < |s| ==> s[a] != s[b]
  }

  /** Inserts index `j` in front of the first index whose weight is not larger. */
  function InsertDescending(row: seq<real>, j: nat, s: seq<nat>): (r: seq<nat>)
    requires j < |row| && forall a :: 0 <= a < |s| ==> s[a] < |row|
    ensures |r| == |s| + 1
    ensures forall a :: 0 <= a < |r| ==> r[a] < |row|
    ensures forall x :: x in r <==> x in s || x == j
    ensures DescendingBy(row, s) ==> DescendingBy(row, r)
    ensures Distinct(s) && j !in s ==> Distinct(r)
  {
    if s == [] then [j]
    else if row[s[0]] > row[j] then
      var rest := InsertDescending(row, j, s[1..]);
      assert s == [s[0]] + s[1..];
      HeadDominates(row, j, s, rest);
      ConsKeeps(row, s[0], rest);
      [s[0]] + rest
    else
      ConsKeeps(row, j, s);
      [j] + s
  }

  /** Putting an index in front keeps the order and distinctness when it dominates and is new. */
  lemma ConsKeeps(row: seq<real>, h: nat, s: seq<nat>)
    requires h < |row| && forall a :: 0 <= a < |s| ==> s[a] < |row|
    ensures DescendingBy(row, s) && (forall b :: 0 <= b < |s| ==> row[h] >= row[s[b]]) ==> DescendingBy(row, [h] + s)
    ensures Distinct(s) && h !in s ==> Distinct([h] + s)
  {
    var r := [h] + s;
    assert forall a :: 1 <= a < |r| ==> r[a] == s[a - 1];
  }

  lemma HeadDominates(row: seq<real>, j: nat, s: seq<nat>, rest: seq<nat>)
    requires s != [] && j < |row| && forall a :: 0 <= a < |s| ==> s[a] < |row|
    requires row[s[0]] > row[j]
    requires forall a :: 0 <= a < |rest| ==> rest[a] < |row|
    requires forall x :: x in rest <==> x in s[1..] || x == j
    ensures DescendingBy(row, s) ==> forall b :: 0 <= b < |rest| ==> row[s[0]] >= row[rest[b]]
    ensures Distinct(s) && j !in s ==> s[0] !in rest
  {
    if DescendingBy(row, s) {
      forall b | 0 <= b < |rest| ensures row[s[0]] >= row[rest[b]] {
        assert rest[b] in rest;
        if rest[b] in s[1..] {
          var q :| 0 <= q < |s[1..]| && s[1..][q] == rest[b];
          assert s[q + 1] == rest[b];
        }
      }
    }
  }

  function SortDescending(row: seq<real>, idx: seq<nat>): (r: seq<nat>)
    requires forall a :: 0 <= a < |idx| ==> idx[a] < |row|
    ensures |r| == |idx|
    ensures forall x :: x in r <==> x in idx
    ensures DescendingBy(row, r)
    ensures Distinct(idx) ==> Distinct(r)
  {
    if idx == [] then []
    else
      var prefix := idx[..|idx| - 1];
      assert forall x :: x in idx <==> x in prefix || x == idx[|idx| - 1];
      InsertDescending(row, idx[|idx| - 1], SortDescending(row, prefix))
  }

  /**
   * `argsort()[::-1]` on one centroid: every index of `row` exactly once, from
   * largest weight to smallest. Among equal weights the model puts the higher
   * index first, as a stable ascending sort reversed does.
   */
  function DescendingOrder(row: seq<real>): (order: seq<nat>)
    ensures |order| == |row|
    ensures forall j :: j in order <==> 0 <= j < |row|
    ensures Distinct(order)
    ensures DescendingBy(row, order)
  {
    SortDescending(row, Range(|row|))
  }

  /**
   * `order_centroids[i, :top_n]`: `min(n, |row|)` distinct indices of `row`, in
   * non-increasing weight, and no index left out weighs more than one chosen.
   * Zero and negative weights are not filtered out.
   */
  function TopIndices(row: seq<real>, n: nat): (top: seq<nat>)
    ensures |top| == if n < |row| then n else |row|
    ensures forall a :: 0 <= a < |top| ==> top[a] < |row|
    ensures Distinct(top)
    ensures forall a, b :: 0 <= a < b < |top| ==> row[top[a]] >= row[top[b]]
    ensures forall j, a :: 0 <= j < |row| && j !in top && 0 <= a < |top| ==> row[j] <= row[top[a]]
  {
    var order := DescendingOrder(row);
    var m := if n < |row| then n else |row|;
    PrefixDominates(row, order, m);
    order[..m]
  }

  /** A prefix of the descending order is distinct, sorted, and outweighs the rest. */
  lemma PrefixDominates(row: seq<real>, order: seq<nat>, m: nat)
    requires m <= |order|
    requires forall j :: j in order <==> 0 <= j < |row|
    requires Distinct(order) && DescendingBy(row, order)
    ensures Distinct(order[..m]) && DescendingBy(row, order[..m])
    ensures forall j, a :: 0 <= j < |row| && j !in order[..m] && 0 <= a < m ==> row[j] <= row[order[a]]
  {
    var top := order[..m];
    assert forall q :: 0 <= q < m ==> order[q] in top;
    forall j, a | 0 <= j < |row| && j !in top && 0 <= a < m ensures row[j] <= row[order[a]] {
      assert j in order;
      var q :| 0 <= q < |order| && order[q] == j;
      assert q >= m;
    }
  }

  function TermsOf(terms: seq<string>, idx: seq<nat>): (r: seq<string>)
    requires forall a :: 0 <= a < |idx| ==> idx[a] < |terms|
    ensures |r| == |idx|
    ensures forall a :: 0 <= a < |idx| ==> r[a] == terms[idx[a]]
  {
    seq(|idx|, a requires 0 <= a < |idx| => terms[idx[a]])
  }

  /**
   * `top` ranks `row`: `min(n, |row|)` distinct indices in non-increasing
   * weight, and no index left out weighs more than one chosen.
   */
  ghost predicate RankedTop(row: seq<real>, n: nat, top: seq<nat>) {
    && |top| == (if n < |row| then n else |row|)
    && Distinct(top)
    && DescendingBy(row, top)
    && (forall j, a :: 0 <= j < |row| && j !in top && 0 <= a < |top| ==> row[j] <= row[top[a]])
  }

  /** Keyword `a` of `kw` is the term at index `top[a]`. */
  ghost predicate NamesTerms(kw: seq<string>, terms: seq<string>, top: seq<nat>) {
    && |kw| == |top|
    && (forall a :: 0 <= a < |top| ==> top[a] < |terms| && kw[a] == terms[top[a]])
  }

  /** `kw` names, in order, the `n` heaviest indices of `row`. */
  ghost predicate RankedTerms(kw: seq<string>, terms: seq<string>, row: seq<real>, n: nat) {
    exists top: seq<nat> :: RankedTop(row, n, top) && NamesTerms(kw, terms, top)
  }

  /**
   * The keywords of one cluster: keyword `a` is the term of the a-th heaviest
   * index of its centroid.
   */
  function ClusterKeywords(terms: seq<string>, center: seq<real>, topN: nat): (kw: seq<string>)
    requires |center| <= |terms|
    ensures |kw| == if topN < |center| then topN else |center|
    ensures forall a :: 0 <= a < |kw| ==> kw[a] in terms[..|center|]
    ensures RankedTerms(kw, terms, center, topN)
  {
    var top := TopIndices(center, topN);
    var kw := TermsOf(terms, top);
    assert RankedTop(center, topN, top) && NamesTerms(kw, terms, top);
    kw
  }

  /**
   * What `_top_terms_per_cluster` computes: one keyword list per cluster, each
   * of `min(topN, F)` terms, the terms of the correspondingly ranked centroid weights.
   */
  function Keywords(terms: seq<string>, centers: seq<seq<real>>, k: nat, topN: nat): (kw: seq<seq<string>>)
    requires k <= |centers| && forall c :: 0 <= c < k ==> |centers[c]| <= |terms|
    ensures |kw| == k
    ensures forall c :: 0 <= c < k ==> |kw[c]| == (if topN < |centers[c]| then topN else |centers[c]|)
    ensures forall c :: 0 <= c < k ==> RankedTerms(kw[c], terms, centers[c], topN)
  {
    var kw := seq(k, c requires 0 <= c < k => ClusterKeywords(terms, centers[c], topN));
    assert forall c :: 0 <= c < k ==> kw[c] == ClusterKeywords(terms, centers[c], topN);
    kw
  }

  /** `_top_terms_per_cluster`: the loop over clusters, appending one keyword list each. */
  method TopTermsPerCluster(x: Tfidf, fit: KMeansFit, k: nat, topN: nat) returns (keywords: seq<seq<string>>)
    requires k <= |fit.centers| && forall c :: 0 <= c < k ==> |fit.centers[c]| <= |x.terms|
    ensures keywords == Keywords(x.terms, fit.centers, k, topN)
  {
    var terms := x.terms;
    keywords := [];
    for i := 0 to k
      invariant |keywords| == i
      invariant forall c :: 0 <= c < i ==> keywords[c] == ClusterKeywords(terms, fit.centers[c], topN)
    {
      var top := ClusterKeywords(terms, fit.centers[i], topN);
      keywords := keywords + [top];
    }
  }

  // ---------------------------------------------------------------------------
  // cluster
  // ---------------------------------------------------------------------------

  /**
   * `AspectClusterer.cluster`. Every path gives one label per text. The result
   * is empty (all labels None, no ids, keywords or sizes, zero clusters)
   * exactly when scikit-learn is missing, there are fewer than two texts, or
   * fitting fails; otherwise it has k clusters, 2 <= k <= |texts|, dense ids
   * [0, k), every text labelled in [0, k), one keyword list of at most 5 terms
   * and one size per cluster, and the sizes add up to the number of texts.
   */
  function Cluster(texts: seq<string>, nClusters: int, learners: Learners): (r: ClusterResult)
    requires LearnersValid(learners)
    ensures |r.labels| == |texts|
    ensures r.nClusters == 0 <==> IsEmptyResult(r)
    ensures r.nClusters == 0 <==>
      || !learners.hasSklearn || |texts| < 2
      || learners.vectorize(texts).None?
      || learners.kmeans(learners.vectorize(texts).value, ClampClusters(nClusters, |texts|)).None?
    ensures r.nClusters != 0 ==>
      && 2 <= r.nClusters <= |texts|
      && (nClusters >= 2 ==> r.nClusters == if nClusters < |texts| then nClusters else |texts|)
      && r.clusterIds == Range(r.nClusters)
      && (forall i :: 0 <= i < |texts| ==> r.labels[i].Some? && 0 <= r.labels[i].value < r.nClusters)
      && |r.keywords| == r.nClusters
      && (forall c :: 0 <= c < r.nClusters ==> |r.keywords[c]| <= 5)
      && |r.sizes| == r.nClusters
      && (forall c :: 0 <= c < r.nClusters ==> r.sizes[c] == CountLabel(r.labels, c))
      && SumInts(r.sizes) == |texts|
  {
    if !learners.hasSklearn || |texts| < 2 then EmptyResult(|texts|)
    else
      match learners.vectorize(texts)
      case None => EmptyResult(|texts|)
      case Some(x) =>
        var k := ClampClusters(nClusters, |x.matrix|);
        match learners.kmeans(x, k)
        case None => EmptyResult(|texts|)
        case Some(fit) => FittedResult(x, fit, k)
  }

  /** The dictionary built from fitted models (source lines 38-46). */
  function FittedResult(x: Tfidf, fit: KMeansFit, k: nat): (r: ClusterResult)
    requires FitShape(fit, |x.matrix|, k, |x.terms|)
    ensures |r.labels| == |fit.labels| && r.nClusters == k
    ensures r.clusterIds == Range(k)
    ensures forall i :: 0 <= i < |r.labels| ==> r.labels[i] == Some(fit.labels[i])
    ensures |r.keywords| == k && forall c :: 0 <= c < k ==> |r.keywords[c]| <= 5
    ensures |r.sizes| == k
    ensures forall c :: 0 <= c < k ==> r.sizes[c] == Count(fit.labels, c) == CountLabel(r.labels, c)
    ensures SumInts(r.sizes) == |fit.labels|
  {
    CountBelowAll(fit.labels, k);
    CountLabelled(fit.labels);
    ClusterResult(Labelled(fit.labels), Range(k), Keywords(x.terms, fit.centers, k, 5), Sizes(fit.labels, k), k)
  }

  /** On success the labels, keywords and sizes are those of the fitted models. */
  lemma ClusterFitted(texts: seq<string>, nClusters: int, learners: Learners, x: Tfidf, fit: KMeansFit)
    requires LearnersValid(learners)
    requires learners.hasSklearn && |texts| >= 2
    requires learners.vectorize(texts) == Some(x)
    requires learners.kmeans(x, ClampClusters(nClusters, |texts|)) == Some(fit)
    ensures var r := Cluster(texts, nClusters, learners);
      && r.nClusters == ClampClusters(nClusters, |texts|)
      && (forall i :: 0 <= i < |texts| ==> r.labels[i] == Some(fit.labels[i]))
      && (forall c :: 0 <= c < r.nClusters ==> r.sizes[c] == Count(fit.labels, c))
      && r.keywords == Keywords(x.terms, fit.centers, r.nClusters, 5)
  {
  }

  /** An exception while fitting yields exactly the result of the degenerate-input guard. */
  lemma FailureMatchesGuard(texts: seq<string>, nClusters: int, learners: Learners)
    requires LearnersValid(learners)
    requires learners.hasSklearn && |texts| >= 2
    requires || learners.vectorize(texts).None?
             || learners.kmeans(learners.vectorize(texts).value, ClampClusters(nClusters, |texts|)).None?
    ensures Cluster(texts, nClusters, learners) == Cluster(texts, nClusters, learners.(hasSklearn := false))
  {
  }
}
