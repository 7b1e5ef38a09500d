/**
 * The sentiment scorer: a backend chosen once at construction (transformer
 * classifier, VADER lexicon scorer, or a constant fallback), then applied to
 * each cleaned text independently.
 *
 * The foreign parts are parameters: `Engines` carries VADER's compound score,
 * the transformer's logits and the exponential, each as a function of its
 * input; `Capabilities` carries the import probes and whether model loading
 * succeeds.
 */
module Sentiment {

  datatype Polarity = Negative | Neutral | Positive

  datatype SentimentResult = SentimentResult(polarity: Polarity, score: real)

  /** The transformer model's classes, in the order of its logits. */
  const TransformerClasses: seq<Polarity> := [Negative, Neutral, Positive]

  /** The environment probes: `_HAS_VADER`, `_HAS_TRANSFORMERS`, and whether `from_pretrained` succeeds. */
  datatype Capabilities = Capabilities(hasVader: bool, hasTransformers: bool, modelLoads: bool)

  /** The backend `predict_one` ends up using. */
  datatype Backend = Transformer | Vader | Trivial

  /** The `vader` attribute: never assigned, `None`, or a `SentimentIntensityAnalyzer`. */
  datatype VaderSlot = Unset | Missing | Analyzer

  /**
   * Foreign computations: VADER's `compound` score of a text, the transformer's
   * logits for a text, and `math.exp`.
   */
  datatype Engines = Engines(compound: string -> real, logits: string -> seq<real>, exp: real -> real)

  /** What the libraries guarantee: a compound in [-1, 1], three logits, a positive increasing exponential. */
  ghost predicate EnginesValid(e: Engines) {
    && (forall t :: -1.0 <= e.compound(t) <= 1.0)
    && (forall t :: |e.logits(t)| == 3)
    && (forall v :: e.exp(v) > 0.0)
    && Increasing(e.exp)
  }

  // ---------------------------------------------------------------------------
  // Backend selection
  // ---------------------------------------------------------------------------

  /**
   * The capability-ordered fallback chain: the transformer when it was
   * requested, is importable and loads; otherwise VADER when importable;
   * otherwise the constant fallback.
   */
  function SelectBackend(requested: bool, caps: Capabilities): (b: Backend)
    ensures b == Transformer <==> requested && caps.hasTransformers && caps.modelLoads
    ensures b == Vader <==> !(requested && caps.hasTransformers && caps.modelLoads) && caps.hasVader
    ensures b == Trivial <==> !(requested && caps.hasTransformers && caps.modelLoads) && !caps.hasVader
  {
    if requested && caps.hasTransformers && caps.modelLoads then Transformer
    else if caps.hasVader then Vader
    else Trivial
  }

  /** A transformer that cannot be used behaves exactly as one that was never requested. */
  lemma UnusableTransformerIsUnrequested(caps: Capabilities)
    requires !(caps.hasTransformers && caps.modelLoads)
    ensures SelectBackend(true, caps) == SelectBackend(false, caps)
  {
  }

  class SentimentAnalyzer {
    var useTransformers: bool
    var transformersReady: bool
    var vader: VaderSlot

    ghost predicate Valid()
      reads this
    {
      && (useTransformers ==> transformersReady)
      && (vader == Unset <==> useTransformers)
    }

    /** `__init__`: settles the three fields step by step, as the source does. */
    constructor (requested: bool, caps: Capabilities)
      ensures Valid()
      ensures useTransformers == (requested && caps.hasTransformers && caps.modelLoads)
      ensures transformersReady == useTransformers
      ensures vader == if useTransformers then Unset else if caps.hasVader then Analyzer else Missing
      ensures Active() == SelectBackend(requested, caps)
    {
      useTransformers := requested && caps.hasTransformers;
      transformersReady := false;
      vader := Unset;
      new;
      if useTransformers {
        if caps.modelLoads {
          transformersReady := true;
        } else {
          // loading failed: fall back to VADER
          useTransformers := false;
        }
      }
      if !useTransformers {
        vader := if caps.hasVader then Analyzer else Missing;
      }
    }

    /**
     * The tests at the head of `predict_one`: the transformer when it is on and
     * ready, otherwise VADER when the analyzer is present, otherwise the
     * fallback.
     */
    function Active(): (b: Backend)
      reads this
      ensures b == Transformer <==> useTransformers && transformersReady
      ensures b == Vader <==> !(useTransformers && transformersReady) && vader == Analyzer
      ensures b == Trivial <==> !(useTransformers && transformersReady) && vader != Analyzer
    {
      if useTransformers && transformersReady then Transformer
      else if vader == Analyzer then Vader
      else Trivial
    }

    /**
     * `predict_one`: the transformer's first class of largest logit when it is
     * on, VADER's mapping when the analyzer is present, neutral 0.5 otherwise.
     */
    function PredictOne(text: string, engines: Engines): (r: SentimentResult)
      reads this
      requires Valid() && EnginesValid(engines)
      ensures r == Predict(Active(), text, engines)
      ensures 0.0 <= r.score <= 1.0
      ensures useTransformers ==>
        r.polarity == TransformerClasses[ArgMax(engines.logits(text))] && r.score >= 1.0 / 3.0
      ensures !useTransformers && vader == Analyzer ==> r == VaderResult(engines.compound(text))
      ensures !useTransformers && vader != Analyzer ==> r == SentimentResult(Neutral, 0.5)
    {
      Predict(Active(), text, engines)
    }

    /** `batch_predict`: one result per text, in input order. */
    function BatchPredict(texts: seq<string>, engines: Engines): (r: seq<SentimentResult>)
      reads this
      requires Valid() && EnginesValid(engines)
      ensures |r| == |texts|
      ensures forall i :: 0 <= i < |texts| ==> r[i] == PredictOne(texts[i], engines)
    {
      if texts == [] then [] else [PredictOne(texts[0], engines)] + BatchPredict(texts[1..], engines)
    }
  }

  // ---------------------------------------------------------------------------
  // The three backends
  // ---------------------------------------------------------------------------

  /**
   * `predict_one` once its backend is fixed. Every score lies in [0, 1]; the
   * transformer's label is the first class of largest logit.
   */
  function Predict(b: Backend, text: string, e: Engines): (r: SentimentResult)
    requires EnginesValid(e)
    ensures 0.0 <= r.score <= 1.0
    ensures b == Transformer ==>
      && r.polarity == TransformerClasses[ArgMax(e.logits(text))]
      && r.score == Softmax(e.logits(text), e.exp)[ArgMax(e.logits(text))]
      && r.score >= 1.0 / 3.0
    ensures b == Vader ==> r == VaderResult(e.compound(text))
    ensures b == Trivial ==> r == SentimentResult(Neutral, 0.5)
  {
    match b
    case Transformer =>
      var logits := e.logits(text);
      var probs := Softmax(logits, e.exp);
      ArgMaxSameOrder(probs, logits);
      MaxAtLeastThird(probs);
      TransformerResult(probs)
    case Vader => VaderResult(e.compound(text))
    case Trivial => SentimentResult(Neutral, 0.5)
  }

  function Abs(x: real): real {
    if x < 0.0 then -x else x
  }

  /**
   * The VADER branch. Polar labels sit outside (-0.05, 0.05) and score
   * (1 + |c|) / 2, at least 0.525; neutral scores 1 - |c|, above 0.95.
   */
  function VaderResult(c: real): (r: SentimentResult)
    requires -1.0 <= c <= 1.0
    ensures 0.0 <= r.score <= 1.0
    ensures r.polarity == Positive <==> c >= 0.05
    ensures r.polarity == Negative <==> c <= -0.05
    ensures r.polarity != Neutral ==> r.score == (1.0 + Abs(c)) / 2.0 && r.score >= 0.525
    ensures r.polarity == Neutral ==> r.score == 1.0 - Abs(c) && r.score > 0.95
  {
    if c >= 0.05 then SentimentResult(Positive, (c + 1.0) / 2.0)
    else if c <= -0.05 then SentimentResult(Negative, (1.0 - c) / 2.0)
    else SentimentResult(Neutral, 1.0 - Abs(c))
  }

  /** The negative formula mirrors the positive one: negating a polar compound swaps the label and keeps the score. */
  lemma VaderSymmetric(c: real)
    requires 0.05 <= c <= 1.0
    ensures VaderResult(-c) == SentimentResult(Negative, VaderResult(c).score)
    ensures VaderResult(c).polarity == Positive
  {
  }

  /**
   * The transformer branch, given the softmax probabilities: the class of the
   * first largest probability, scored by that probability.
   */
  function TransformerResult(probs: seq<real>): (r: SentimentResult)
    requires |probs| == 3
    ensures exists k :: (
      && 0 <= k < 3 && r == SentimentResult(TransformerClasses[k], probs[k])
      && forall i :: 0 <= i < k ==> probs[i] < probs[k])
    ensures forall i :: 0 <= i < |probs| ==> probs[i] <= r.score
  {
    var idx := ArgMax(probs);
    SentimentResult(TransformerClasses[idx], probs[idx])
  }

  // ---------------------------------------------------------------------------
  // Softmax and argmax
  // ---------------------------------------------------------------------------

  function Sum(s: seq<real>): real {
    if s == [] then 0.0 else s[0] + Sum(s[1..])
  }

  /** `max(x)`. */
  function MaxOf(s: seq<real>): (m: real)
    requires |s| > 0
    ensures m in s
    ensures forall i :: 0 <= i < |s| ==> s[i] <= m
  {
    if |s| == 1 then s[0]
    else
      var m' := MaxOf(s[1..]);
      if s[0] >= m' then s[0] else m'
  }

  /** `max(range(len(s)), key=lambda i: s[i])`: the first index of a largest element. */
  function ArgMax(s: seq<real>): (k: nat)
    requires |s| > 0
    ensures k < |s|
    ensures forall i :: 0 <= i < |s| ==> s[i] <= s[k]
    ensures forall i :: 0 <= i < k ==> s[i] < s[k]
  {
    if |s| == 1 then 0
    else
      var k' := ArgMax(s[..|s| - 1]);
      if s[|s| - 1] > s[k'] then |s| - 1 else k'
  }

  /** Two sequences ordered alike have the same first largest element. */
  lemma ArgMaxSameOrder(a: seq<real>, b: seq<real>)
    requires |a| == |b| > 0
    requires forall i, j :: 0 <= i < |a| && 0 <= j < |a| ==> (a[i] < a[j] <==> b[i] < b[j])
    ensures ArgMax(a) == ArgMax(b)
  {
  }

  function Divided(a: seq<real>, d: real): (r: seq<real>)
    requires d != 0.0
    ensures |r| == |a|
    ensures forall i :: 0 <= i < |a| ==> r[i] == a[i] / d
  {
    if a == [] then [] else [a[0] / d] + Divided(a[1..], d)
  }

  ghost predicate Increasing(exp: real -> real) {
    forall u, v :: u < v ==> exp(u) < exp(v)
  }

  /**
   * `_softmax` with the maximum subtracted first: a probability vector (every
   * entry in (0, 1], summing to 1) ordered exactly as the logits are.
   */
  function Softmax(x: seq<real>, exp: real -> real): (p: seq<real>)
    requires |x| > 0
    requires forall v :: exp(v) > 0.0
    requires Increasing(exp)
    ensures |p| == |x|
    ensures forall i :: 0 <= i < |p| ==> 0.0 < p[i] <= 1.0
    ensures Sum(p) == 1.0
    ensures forall i, j :: 0 <= i < |x| && 0 <= j < |x| ==> (p[i] < p[j] <==> x[i] < x[j])
  {
    var exps := Shifted(x, MaxOf(x), exp);
    Normalised(exps);
    Divided(exps, Sum(exps))
  }

  /** `[math.exp(v - m) for v in x]`: positive, and ordered as `x` is. */
  function Shifted(x: seq<real>, m: real, exp: real -> real): (r: seq<real>)
    requires forall v :: exp(v) > 0.0
    requires Increasing(exp)
    ensures |r| == |x|
    ensures forall i :: 0 <= i < |r| ==> r[i] > 0.0
    ensures forall i, j :: 0 <= i < |x| && 0 <= j < |x| ==> (r[i] < r[j] <==> x[i] < x[j])
  {
    var r := seq(|x|, i requires 0 <= i < |x| => exp(x[i] - m));
    assert forall i, j :: 0 <= i < |x| && 0 <= j < |x| && x[i] < x[j] ==> r[i] < r[j];
    r
  }

  /** Dividing positive numbers by their sum gives a probability vector ordered as they are. */
  lemma Normalised(a: seq<real>)
    requires |a| > 0
    requires forall i :: 0 <= i < |a| ==> a[i] > 0.0
    ensures Sum(a) > 0.0
    ensures var p := Divided(a, Sum(a));
      && (forall i :: 0 <= i < |a| ==> 0.0 < p[i] <= 1.0)
      && Sum(p) == 1.0
      && (forall i, j :: 0 <= i < |a| && 0 <= j < |a| ==> (p[i] < p[j] <==> a[i] < a[j]))
  {
    SumBounds(a);
    var total := Sum(a);
    var p := Divided(a, total);
    assert Sum(p) == 1.0 by {
      SumDivided(a, total);
      DivSelf(total);
    }
    assert forall i :: 0 <= i < |a| ==> 0.0 < p[i] <= 1.0 by {
      DividedBounds(a, total);
    }
    assert forall i, j :: 0 <= i < |a| && 0 <= j < |a| ==> (p[i] < p[j] <==> a[i] < a[j]) by {
      DividedKeepsOrder(a, total);
    }
  }

  lemma DivSelf(d: real)
    requires d > 0.0
    ensures d / d == 1.0
  {
  }

  lemma {:induction false} SumBounds(a: seq<real>)
    requires |a| > 0
    requires forall i :: 0 <= i < |a| ==> a[i] > 0.0
    ensures Sum(a) > 0.0
    ensures forall i :: 0 <= i < |a| ==> a[i] <= Sum(a)
  {
    if |a| > 1 {
      SumBounds(a[1..]);
      assert forall i :: 1 <= i < |a| ==> a[i] == a[1..][i - 1];
    }
  }

  lemma {:induction false} SumDivided(a: seq<real>, d: real)
    requires d != 0.0
    ensures Sum(Divided(a, d)) == Sum(a) / d
  {
    if a != [] {
      SumDivided(a[1..], d);
      assert Divided(a, d)[1..] == Divided(a[1..], d);
    }
  }

  lemma DividedKeepsOrder(a: seq<real>, d: real)
    requires d > 0.0
    ensures forall i, j :: 0 <= i < |a| && 0 <= j < |a| ==> (Divided(a, d)[i] < Divided(a, d)[j] <==> a[i] < a[j])
  {
    forall i, j | 0 <= i < |a| && 0 <= j < |a|
      ensures Divided(a, d)[i] < Divided(a, d)[j] <==> a[i] < a[j]
    {
      DivLess(a[i], a[j], d);
      DivLess(a[j], a[i], d);
    }
  }

  lemma DividedBounds(a: seq<real>, d: real)
    requires d > 0.0
    requires forall i :: 0 <= i < |a| ==> 0.0 < a[i] <= d
    ensures forall i :: 0 <= i < |a| ==> 0.0 < Divided(a, d)[i] <= 1.0
  {
    var r := Divided(a, d);
    DivSelf(d);
    forall i | 0 <= i < |a| ensures 0.0 < r[i] <= 1.0 {
      var x := a[i];
      assert r[i] == x / d;
      DivLess(0.0, x, d);
      assert 0.0 / d == 0.0;
      if x < d {
        DivLess(x, d, d);
      }
    }
  }

  lemma DivLess(x: real, y: real, d: real)
    requires d > 0.0
    ensures x < y <==> x / d < y / d
  {
    assert x == (x / d) * d && y == (y / d) * d;
    if x / d < y / d {
      assert (x / d) * d < (y / d) * d;
    }
  }

  /** The largest of three probabilities summing to 1 is at least a third. */
  lemma MaxAtLeastThird(p: seq<real>)
    requires |p| == 3 && Sum(p) == 1.0
    ensures p[ArgMax(p)] >= 1.0 / 3.0
  {
    assert p[2..][1..] == [];
    assert Sum(p[2..]) == p[2];
    assert p[1..][1..] == p[2..];
    assert Sum(p) == p[0] + p[1] + p[2];
  }
}
