/**
 The window statistics `get_average_sentiment` computes over the score deque:
 the window itself (Python's `scores[-n:]`), its length, its average, and how
 many scores fall in each of three buckets.

 As the source is written this body is unreachable and would not run: its
 `def` is indented inside `process_message` (svm.py:119), so the class has no
 such method, and it slices a `deque`, which Python refuses (svm.py:127). The
 model gives the body the meaning it evidently has on a list of scores.
 */
module Aggregate {
  import opened Wrappers
  import Sentiment
  import Strings

  /**
   Python's `scores[-n:]` on a list of scores: always a run of the newest
   scores, and for a positive `n` the newest `min(n, len)` of them.
   */
  function Window(scores: seq<real>, n: int): (w: seq<real>)
    ensures |w| <= |scores| && w == scores[|scores| - |w|..]
    ensures n > 0 ==> |w| == Strings.Min(n, |scores|)
  {
    if n > 0 then (if n < |scores| then scores[|scores| - n..] else scores)
    else if -n < |scores| then scores[-n..]
    else []
  }

  /**
   The window for the other values of `n`: for `n == 0` all the scores (`-0`
   is `0`), and for a negative `n` all but the oldest `-n`.
   */
  lemma {:induction false} WindowIsNewest(scores: seq<real>, n: int)
    ensures n == 0 ==> Window(scores, n) == scores
    ensures n < 0 ==> |Window(scores, n)| == if -n < |scores| then |scores| + n else 0
  {
  }

  /** The three buckets of `sentiment_distribution`. */
  datatype Bucket = Positive | Neutral | Negative

  /** The three comprehension filters, each written as in the source. */
  predicate InBucket(s: real, b: Bucket)
  {
    match b
    case Positive => s > 0.1
    case Neutral => -0.1 <= s <= 0.1
    case Negative => s < -0.1
  }

  /** `sum(1 for s in scores if ...)`. */
  function Count(scores: seq<real>, b: Bucket): (c: nat)
    ensures c <= |scores|
  {
    if |scores| == 0 then 0
    else (if InBucket(scores[0], b) then 1 else 0) + Count(scores[1..], b)
  }

  /** A single score is counted exactly when its bucket's filter accepts it. */
  lemma {:induction false} CountOne(x: real, b: Bucket)
    ensures Count([x], b) == if InBucket(x, b) then 1 else 0
  {
    assert [x][1..] == [];
  }

  /** Counting a concatenation adds the counts of its two parts. */
  lemma {:induction false} CountAppend(xs: seq<real>, ys: seq<real>, b: Bucket)
    ensures Count(xs + ys, b) == Count(xs, b) + Count(ys, b)
  {
    if |xs| == 0 {
      assert xs + ys == ys;
    } else {
      assert (xs + ys)[0] == xs[0];
      assert (xs + ys)[1..] == xs[1..] + ys;
      CountAppend(xs[1..], ys, b);
    }
  }

  /** `Count` is the number of positions whose score the bucket's filter accepts. */
  lemma {:induction false} CountIsCardinality(scores: seq<real>, b: Bucket)
    ensures Count(scores, b) == |set i | 0 <= i < |scores| && InBucket(scores[i], b)|
  {
    CountPrefix(scores, b, |scores|);
    assert scores[..|scores|] == scores;
  }

  lemma {:induction false} CountPrefix(scores: seq<real>, b: Bucket, n: nat)
    requires n <= |scores|
    ensures Count(scores[..n], b) == |set i | 0 <= i < n && InBucket(scores[i], b)|
  {
    var upto := set i | 0 <= i < n && InBucket(scores[i], b);
    if n == 0 {
      assert upto == {};
    } else {
      CountPrefix(scores, b, n - 1);
      assert scores[..n] == scores[..n - 1] + [scores[n - 1]];
      CountAppend(scores[..n - 1], [scores[n - 1]], b);
      CountOne(scores[n - 1], b);
      IndicesStep(scores, b, n);
    }
  }

  /** Taking one more position adds it to the accepted positions exactly when its score is accepted. */
  lemma {:induction false} IndicesStep(scores: seq<real>, b: Bucket, n: nat)
    requires 0 < n <= |scores|
    ensures |set i | 0 <= i < n && InBucket(scores[i], b)|
      == |set i | 0 <= i < n - 1 && InBucket(scores[i], b)| + (if InBucket(scores[n - 1], b) then 1 else 0)
  {
    var upto := set i | 0 <= i < n && InBucket(scores[i], b);
    var before := set i | 0 <= i < n - 1 && InBucket(scores[i], b);
    if InBucket(scores[n - 1], b) {
      assert n - 1 !in before;
      assert upto == before + {n - 1};
    } else {
      assert upto == before;
    }
  }

  /** The sum `np.average` divides; scores in [-1, 1] add up to at most their number in absolute value. */
  function Sum(scores: seq<real>): (total: real)
    ensures (forall i :: 0 <= i < |scores| ==> -1.0 <= scores[i] <= 1.0) ==>
      -(|scores| as real) <= total <= |scores| as real
  {
    if |scores| == 0 then 0.0
    else
      assert forall i :: 0 <= i < |scores| - 1 ==> scores[1..][i] == scores[i + 1];
      scores[0] + Sum(scores[1..])
  }

  /** `np.average(scores)`; the average of no scores is NaN, here `None`. */
  function Average(scores: seq<real>): (avg: Option<real>)
    ensures avg.Some? <==> |scores| > 0
  {
    if |scores| == 0 then None else Some(Sum(scores) / (|scores| as real))
  }

  /** `sentiment_distribution`. */
  datatype Distribution = Distribution(positive: nat, neutral: nat, negative: nat)

  /**
   The dictionary returned: for an empty deque only a zero average and a zero
   count; otherwise the window, its length and its distribution. The average
   computed for a non-empty deque is not part of the result.
   */
  datatype Snapshot =
    | Idle(averageSentiment: real, messageCount: nat)
    | Summary(messages: seq<real>, messageCount: nat, distribution: Distribution)

  /**
   `sentiment_distribution` of a window: each field counts the scores its
   bucket's filter accepts, and the three counts add up to the window's length.
   */
  function Distribute(scores: seq<real>): (d: Distribution)
    ensures d.positive == Count(scores, Positive)
    ensures d.neutral == Count(scores, Neutral)
    ensures d.negative == Count(scores, Negative)
    ensures d.positive + d.neutral + d.negative == |scores|
  {
    BucketsPartition(scores);
    Distribution(Count(scores, Positive), Count(scores, Neutral), Count(scores, Negative))
  }

  /** The body of `get_average_sentiment(n_messages)` over the score deque. */
  function GetAverageSentiment(cache: seq<real>, n: int): (snap: Snapshot)
    ensures snap.Idle? <==> |cache| == 0
    ensures snap.Idle? ==> snap.averageSentiment == 0.0 && snap.messageCount == 0
    ensures snap.Summary? ==>
      && snap.messageCount == |snap.messages| <= |cache|
      && snap.messages == cache[|cache| - |snap.messages|..]
      && (n > 0 ==> snap.messageCount == Strings.Min(n, |cache|))
      && snap.distribution.positive == Count(snap.messages, Positive)
      && snap.distribution.neutral == Count(snap.messages, Neutral)
      && snap.distribution.negative == Count(snap.messages, Negative)
      && snap.distribution.positive + snap.distribution.neutral + snap.distribution.negative == snap.messageCount
  {
    if |cache| == 0 then Idle(0.0, 0)
    else
      var w := Window(cache, n);
      Summary(w, |w|, Distribute(w))
  }

  /** Each score lands in exactly one bucket. */
  lemma {:induction false} ExactlyOneBucket(s: real)
    ensures InBucket(s, Positive) <==> !InBucket(s, Neutral) && !InBucket(s, Negative)
    ensures InBucket(s, Neutral) <==> !InBucket(s, Positive) && !InBucket(s, Negative)
    ensures InBucket(s, Negative) <==> !InBucket(s, Positive) && !InBucket(s, Neutral)
  {
  }

  /** The bucket counts add up to the number of scores. */
  lemma {:induction false} BucketsPartition(scores: seq<real>)
    ensures Count(scores, Positive) + Count(scores, Neutral) + Count(scores, Negative) == |scores|
  {
    if |scores| > 0 {
      ExactlyOneBucket(scores[0]);
      BucketsPartition(scores[1..]);
    }
  }

  predicate UnitScores(scores: seq<real>)
  {
    forall i :: 0 <= i < |scores| ==> scores[i] == 1.0 || scores[i] == -1.0
  }

  /** Scores of ±1 are never neutral, and add up to positives minus negatives. */
  lemma {:induction false} UnitScoresCount(scores: seq<real>)
    requires UnitScores(scores)
    ensures Count(scores, Neutral) == 0
    ensures Sum(scores) == (Count(scores, Positive) as real) - (Count(scores, Negative) as real)
  {
    if |scores| > 0 {
      assert UnitScores(scores[1..]) by {
        forall i | 0 <= i < |scores| - 1 ensures scores[1..][i] == 1.0 || scores[1..][i] == -1.0 {
          assert scores[1..][i] == scores[i + 1];
        }
      }
      UnitScoresCount(scores[1..]);
    }
  }

  lemma {:induction false} RatioWithinOne(s: real, n: real)
    requires 0.0 < n && -n <= s <= n
    ensures -1.0 <= s / n <= 1.0
  {
  }

  /** The average of scores in [-1, 1] lies in [-1, 1]. */
  lemma {:induction false} AverageBounds(scores: seq<real>)
    requires |scores| > 0
    requires forall i :: 0 <= i < |scores| ==> -1.0 <= scores[i] <= 1.0
    ensures -1.0 <= Average(scores).value <= 1.0
  {
    RatioWithinOne(Sum(scores), |scores| as real);
  }

  lemma {:induction false} SuffixOfUnitScores(scores: seq<real>, off: nat)
    requires UnitScores(scores) && off <= |scores|
    ensures UnitScores(scores[off..])
  {
    forall i | 0 <= i < |scores| - off ensures scores[off..][i] == 1.0 || scores[off..][i] == -1.0 {
      assert scores[off..][i] == scores[off + i];
    }
  }

  /** Every window of a deque of ±1 scores holds only ±1 scores. */
  lemma {:induction false} WindowOfUnitScores(scores: seq<real>, n: int)
    requires UnitScores(scores)
    ensures UnitScores(Window(scores, n))
  {
    SuffixOfUnitScores(scores, |scores| - |Window(scores, n)|);
  }

  /**
   Over the deque the classifier keeps, the snapshot has no neutral scores and
   the window's average is the balance of positives and negatives.
   */
  lemma {:induction false} ClassifierSnapshot(st: Sentiment.ClassifierState, n: int)
    requires Sentiment.Inv(st) && |st.sentimentCache| > 0
    ensures var snap := GetAverageSentiment(st.sentimentCache, n);
      && snap.Summary?
      && snap.distribution.neutral == 0
      && snap.distribution.positive + snap.distribution.negative == snap.messageCount
      && (snap.messageCount > 0 ==>
            Average(snap.messages) == Some(((snap.distribution.positive as real) - (snap.distribution.negative as real))
                                           / (snap.messageCount as real)))
  {
    var w := Window(st.sentimentCache, n);
    assert GetAverageSentiment(st.sentimentCache, n) == Summary(w, |w|, Distribute(w));
    WindowOfUnitScores(st.sentimentCache, n);
    UnitScoresCount(w);
  }

  /** Three messages scored +1, -1 and 0, aggregated over a window of 3. */
  lemma ThreeMessageExample()
    ensures GetAverageSentiment([1.0, -1.0, 0.0], 3) == Summary([1.0, -1.0, 0.0], 3, Distribution(1, 1, 1))
    ensures Average([1.0, -1.0, 0.0]) == Some(0.0)
  {
    var s := [1.0, -1.0, 0.0];
    assert s[1..] == [-1.0, 0.0];
    assert s[1..][1..] == [0.0];
    assert s[1..][1..][1..] == [];
  }
}
