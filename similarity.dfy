/** How `TabGrouper` decides that two topics name the same subject
    (utils/tab-grouper.js): a Jaccard score over the significant words of the
    two topics, and a three-band judgement that consults the language model
    only when the score is inconclusive. */
module Similarity {
  import opened Wrappers
  import opened Text
  import opened LanguageModel

  /** The distinct lower-cased words of `s` that are longer than three
      characters. */
  function SignificantWords(s: string): (w: set<string>)
    ensures forall x :: x in w ==> |x| > 3 && NoWhitespace(x)
  {
    set x | x in SplitWhitespace(Lower(s)) && |x| > 3
  }

  /** `calculateStringSimilarity`: 0 when either topic has no significant
      word, otherwise the shared words over all words. */
  function Score(t1: string, t2: string): (r: real)
    ensures 0.0 <= r <= 1.0
  {
    var w1, w2 := SignificantWords(t1), SignificantWords(t2);
    if w1 == {} || w2 == {} then 0.0
    else
      CardBounds(w1, w2);
      Ratio(|w1 * w2|, |w1 + w2|)
  }

  /** `part / whole` for a part of a non-empty whole. */
  function Ratio(part: nat, whole: nat): (r: real)
    requires part <= whole && whole >= 1
    ensures 0.0 <= r <= 1.0
    ensures r == 1.0 <==> part == whole
    ensures r == 0.0 <==> part == 0
  {
    var q := (part as real) / (whole as real);
    assert q * (whole as real) == part as real;
    q
  }

  lemma CardOfSubset<T>(a: set<T>, b: set<T>)
    requires a <= b
    ensures |a| <= |b|
    ensures |a| == |b| ==> a == b
  {
    var d := b - a;
    assert b == a + d && a * d == {};
    if |a| == |b| {
      assert d == {};
    }
  }

  lemma CardBounds<T>(a: set<T>, b: set<T>)
    requires a != {}
    ensures 0 <= |a * b| <= |a + b| && |a + b| >= 1
  {
    CardOfSubset(a * b, a + b);
    CardOfSubset(a, a + b);
  }

  /** The score does not depend on the order of the topics. */
  lemma ScoreSymmetric(t1: string, t2: string)
    ensures Score(t1, t2) == Score(t2, t1)
  {
    var w1, w2 := SignificantWords(t1), SignificantWords(t2);
    assert w1 * w2 == w2 * w1 && w1 + w2 == w2 + w1;
  }

  /** The score is 1 exactly when both topics have the same, non-empty set of
      significant words; in particular a topic with such a word scores 1
      against itself. */
  lemma {:induction false} ScoreOne(t1: string, t2: string)
    ensures Score(t1, t2) == 1.0 <==>
      SignificantWords(t1) != {} && SignificantWords(t1) == SignificantWords(t2)
  {
    var w1, w2 := SignificantWords(t1), SignificantWords(t2);
    if w1 != {} && w2 != {} {
      CardBounds(w1, w2);
      CardOfSubset(w1 * w2, w1 + w2);
      if w1 == w2 {
        assert w1 * w2 == w1 && w1 + w2 == w1;
      } else {
        assert (w1 - w2) + (w2 - w1) != {};
        var x :| x in (w1 - w2) + (w2 - w1);
        assert x in w1 + w2 && x !in w1 * w2;
      }
    }
  }

  lemma SelfScore(t: string)
    requires SignificantWords(t) != {}
    ensures Score(t, t) == 1.0
  {
    ScoreOne(t, t);
  }

  /** The score is 0 exactly when a topic has no significant word or the two
      share none. */
  lemma {:induction false} ScoreZero(t1: string, t2: string)
    ensures Score(t1, t2) == 0.0 <==>
      SignificantWords(t1) == {} || SignificantWords(t2) == {} ||
      SignificantWords(t1) * SignificantWords(t2) == {}
  {
    var w1, w2 := SignificantWords(t1), SignificantWords(t2);
    if w1 != {} && w2 != {} && w1 * w2 != {} {
      var x :| x in w1 * w2;
      assert |w1 * w2| >= 1;
    }
  }

  /** The score below which two topics are different without asking. */
  const Low: real := 0.2
  /** The score above which two topics are the same without asking. */
  const High: real := 0.8

  function SimilarityPrompt(t1: string, t2: string): Prompt {
    SameSubject(t1, t2)
  }

  /** The model's answer counts as agreement when, trimmed and upper-cased, it
      contains "YES" anywhere. */
  predicate SaysYes(answer: string) {
    Contains(Upper(Trim(answer)), "YES")
  }

  /** `areTopicsSimilar`. A failed prompt is a "no". */
  function AreTopicsSimilar(t1: string, t2: string, model: Oracle): (r: bool)
    ensures Score(t1, t2) > High ==> r
    ensures Score(t1, t2) < Low ==> !r
    ensures Low <= Score(t1, t2) <= High ==>
      (r <==> model(SimilarityPrompt(t1, t2)).Some? && SaysYes(model(SimilarityPrompt(t1, t2)).value))
  {
    var score := Score(t1, t2);
    if score > High then true
    else if score < Low then false
    else match model(SimilarityPrompt(t1, t2))
      case None => false
      case Some(answer) => SaysYes(answer)
  }

  /** Outside the band the model is not consulted: any two models give the
      same verdict. */
  lemma DecidedWithoutModel(t1: string, t2: string, m1: Oracle, m2: Oracle)
    requires Score(t1, t2) > High || Score(t1, t2) < Low
    ensures AreTopicsSimilar(t1, t2, m1) == AreTopicsSimilar(t1, t2, m2)
  {
  }

  /** A topic with a significant word is always similar to itself, whatever
      the model says. */
  lemma SimilarToItself(t: string, model: Oracle)
    requires SignificantWords(t) != {}
    ensures AreTopicsSimilar(t, t, model)
  {
    SelfScore(t);
  }

  /** A topic without a significant word is never similar to anything. */
  lemma NoSignificantWordNeverSimilar(t1: string, t2: string, model: Oracle)
    requires SignificantWords(t1) == {} || SignificantWords(t2) == {}
    ensures !AreTopicsSimilar(t1, t2, model) && !AreTopicsSimilar(t2, t1, model)
  {
  }
}
