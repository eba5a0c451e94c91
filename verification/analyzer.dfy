/**
 * The pure rules inside the message-analyzer cog: which attributes are sent
 * to the scoring service, how the per-message answers are averaged into one
 * percentage per attribute, how an attribute is titled in the report, and
 * the add/remove commands over a server's attribute configuration.
 *
 * The scoring service itself is a function value `analyze`, taking the
 * message text and the requested attribute names to the parsed JSON answer.
 */
module MessageAnalyzer {
  import opened Common
  import opened Text

  // ---------------------------------------------------------------------------
  // Attribute vocabulary and the requested-attribute rule
  // ---------------------------------------------------------------------------

  /** The nine attribute names the cog knows. */
  const Vocabulary: set<string> := {
    "TOXICITY", "SEVERE_TOXICITY", "ATTACK_ON_AUTHOR", "ATTACK_ON_COMMENTER",
    "INCOHERENT", "INFLAMMATORY", "LIKELY_TO_REJECT", "OBSCENE", "SPAM"
  }

  /** The configuration a server starts with. */
  const DefaultAttributes: set<string> := {"TOXICITY", "SEVERE_TOXICITY"}

  /**
   * The attributes sent with each message: the server's configuration, or
   * the whole vocabulary when the configuration is empty.
   */
  function RequestedAttributes(config: set<string>): (requested: set<string>)
    ensures requested != {}
    ensures config != {} ==> requested == config
    ensures config == {} ==> requested == Vocabulary
    ensures config <= Vocabulary ==> requested <= Vocabulary
  {
    assert "TOXICITY" in Vocabulary;
    if config == {} then Vocabulary else config
  }

  // ---------------------------------------------------------------------------
  // Scoring-service answers
  // ---------------------------------------------------------------------------

  /** One attribute's entry: its `summaryScore.value`, `None` when that path is missing. */
  datatype AttributeScore = AttributeScore(summaryScore: Option<real>)

  /**
   * One answer: whether it carries a top-level `error` key, and its
   * `attributeScores` object if it has one.
   */
  datatype Response = Response(hasError: bool, attributeScores: Option<map<string, AttributeScore>>)

  /** Reading `summaryScore.value` of an entry that lacks it raises an uncaught `KeyError`. */
  predicate HasSummaryScores(r: Response)
  {
    r.attributeScores.Some? ==>
      forall a :: a in r.attributeScores.value ==> r.attributeScores.value[a].summaryScore.Some?
  }

  predicate AllHaveSummaryScores(rs: seq<Response>)
  {
    forall r :: r in rs ==> HasSummaryScores(r)
  }

  /** The attribute names an answer scores. */
  function ScoredAttributes(r: Response): set<string>
  {
    match r.attributeScores
    case None => {}
    case Some(m) => m.Keys
  }

  /** What one answer adds to the collected scores of attribute `a`: its score, or nothing. */
  function Contribution(r: Response, a: string): (c: seq<real>)
    requires HasSummaryScores(r)
    ensures |c| == (if a in ScoredAttributes(r) then 1 else 0)
  {
    match r.attributeScores
    case None => []
    case Some(m) => if a in m then [m[a].summaryScore.value] else []
  }

  /** The scores of attribute `a` collected from the answers, in answer order. */
  function Scores(rs: seq<Response>, a: string): seq<real>
    requires AllHaveSummaryScores(rs)
  {
    if |rs| == 0 then []
    else Scores(rs[..|rs| - 1], a) + Contribution(rs[|rs| - 1], a)
  }

  /** Every attribute name scored by at least one answer. */
  function Returned(rs: seq<Response>): set<string>
  {
    if |rs| == 0 then {}
    else Returned(rs[..|rs| - 1]) + ScoredAttributes(rs[|rs| - 1])
  }

  function Sum(s: seq<real>): real
  {
    if |s| == 0 then 0.0 else Sum(s[..|s| - 1]) + s[|s| - 1]
  }

  /** The arithmetic mean. */
  function Mean(s: seq<real>): real
    requires |s| > 0
  {
    Sum(s) / (|s| as real)
  }

  /** `(total * 100) / count` */
  function PercentageOf(total: real, count: nat): real
    requires count > 0
  {
    (total * 100.0) / (count as real)
  }

  /** `(sum(scores) * 100) / len(scores)` */
  function Percentage(s: seq<real>): real
    requires |s| > 0
  {
    PercentageOf(Sum(s), |s|)
  }

  /** The reported figure is 100 times the arithmetic mean. */
  lemma PercentageIsScaledMean(s: seq<real>)
    requires |s| > 0
    ensures Percentage(s) == 100.0 * Mean(s)
  {
    var n := |s| as real;
    calc {
      Percentage(s);
      PercentageOf(Sum(s), |s|);
      (Sum(s) * 100.0) / n;
      100.0 * (Sum(s) / n);
    }
  }

  /** A percentage of scores in [0, 1] lies in [0, 100]. */
  lemma PercentageBounds(s: seq<real>)
    requires |s| > 0
    requires forall i :: 0 <= i < |s| ==> 0.0 <= s[i] <= 1.0
    ensures 0.0 <= Percentage(s) <= 100.0
  {
    SumBounds(s);
    var n := |s| as real;
    assert 0.0 <= Sum(s) * 100.0 <= n * 100.0;
    assert Percentage(s) == (Sum(s) * 100.0) / n;
  }

  /**
   * The reference aggregate: for every attribute some answer scores, 100
   * times the mean of the scores collected for it.
   */
  function Aggregate(rs: seq<Response>): (agg: map<string, real>)
    requires AllHaveSummaryScores(rs)
    ensures agg.Keys == Returned(rs)
  {
    // Every returned name has at least one score, so the second conjunct never filters.
    ReturnedHaveScores(rs);
    map a | a in Returned(rs) && |Scores(rs, a)| > 0 :: Percentage(Scores(rs, a))
  }

  lemma {:induction false} ReturnedIffScored(rs: seq<Response>, a: string)
    requires AllHaveSummaryScores(rs)
    ensures a in Returned(rs) <==> |Scores(rs, a)| > 0
  {
    if |rs| > 0 {
      ReturnedIffScored(rs[..|rs| - 1], a);
    }
  }

  lemma ReturnedHaveScores(rs: seq<Response>)
    requires AllHaveSummaryScores(rs)
    ensures forall a :: a in Returned(rs) ==> |Scores(rs, a)| > 0
  {
    forall a | a in Returned(rs)
      ensures |Scores(rs, a)| > 0
    {
      ReturnedIffScored(rs, a);
    }
  }

  // ---------------------------------------------------------------------------
  // The aggregation loop
  // ---------------------------------------------------------------------------

  /**
   * The scoring service: `analyze(i, text, requested)` is the answer to the
   * i-th request of a batch. Each message is a separate request, so two
   * messages with the same text may get different answers.
   */
  type Service = (nat, string, set<string>) -> Response

  /** Every answer of the batch carries `summaryScore.value` for each attribute it scores. */
  predicate AnswersWellFormed(messages: seq<string>, config: set<string>, analyze: Service)
  {
    forall i :: 0 <= i < |messages| ==> HasSummaryScores(analyze(i, messages[i], RequestedAttributes(config)))
  }

  /** The answers the service gives, one per message, in message order. */
  function Responses(messages: seq<string>, config: set<string>, analyze: Service): (rs: seq<Response>)
    ensures |rs| == |messages|
    ensures forall i :: 0 <= i < |messages| ==> rs[i] == analyze(i, messages[i], RequestedAttributes(config))
    ensures AnswersWellFormed(messages, config, analyze) ==> AllHaveSummaryScores(rs)
  {
    seq(|messages|, i requires 0 <= i < |messages| => analyze(i, messages[i], RequestedAttributes(config)))
  }

  /** The scores collected so far for `a`; an attribute not seen yet has none. */
  function Collected(channel: map<string, seq<real>>, a: string): seq<real>
  {
    if a in channel then channel[a] else []
  }

  /** The inner loop: appends each entry's summary score to that attribute's list. */
  method CollectScores(channel: map<string, seq<real>>, scores: map<string, AttributeScore>)
    returns (channel': map<string, seq<real>>)
    requires forall a :: a in scores ==> scores[a].summaryScore.Some?
    ensures channel'.Keys == channel.Keys + scores.Keys
    ensures forall a :: a !in scores ==> Collected(channel', a) == Collected(channel, a)
    ensures forall a :: a in scores ==> Collected(channel', a) == Collected(channel, a) + [scores[a].summaryScore.value]
  {
    channel' := channel;
    var todo := scores.Keys;
    while todo != {}
      invariant todo <= scores.Keys
      invariant channel'.Keys == channel.Keys + (scores.Keys - todo)
      invariant forall a :: a !in scores || a in todo ==> Collected(channel', a) == Collected(channel, a)
      invariant forall a :: a in scores && a !in todo ==>
        Collected(channel', a) == Collected(channel, a) + [scores[a].summaryScore.value]
      decreases todo
    {
      var a :| a in todo;
      // a name seen for the first time starts from an empty list
      channel' := channel'[a := Collected(channel', a) + [scores[a].summaryScore.value]];
      todo := todo - {a};
    }
  }

  /** One answer's pass: an answer without `attributeScores` leaves the lists as they are. */
  method CollectAnswer(channel: map<string, seq<real>>, response: Response)
    returns (channel': map<string, seq<real>>)
    requires HasSummaryScores(response)
    ensures channel'.Keys == channel.Keys + ScoredAttributes(response)
    ensures forall a :: Collected(channel', a) == Collected(channel, a) + Contribution(response, a)
  {
    channel' := channel;
    if response.attributeScores.Some? {
      channel' := CollectScores(channel, response.attributeScores.value);
    }
    forall a
      ensures Collected(channel', a) == Collected(channel, a) + Contribution(response, a)
    {
      if Contribution(response, a) == [] {
        assert Collected(channel, a) + [] == Collected(channel, a);
      }
    }
  }

  lemma ScoresStep(rs: seq<Response>, i: nat)
    requires AllHaveSummaryScores(rs)
    requires i < |rs|
    ensures AllHaveSummaryScores(rs[..i]) && AllHaveSummaryScores(rs[..i + 1])
    ensures Returned(rs[..i + 1]) == Returned(rs[..i]) + ScoredAttributes(rs[i])
    ensures forall a :: Scores(rs[..i + 1], a) == Scores(rs[..i], a) + Contribution(rs[i], a)
  {
    assert rs[..i + 1][..i] == rs[..i];
    assert rs[i] in rs;
  }

  /**
   * The statistics of a batch of messages: each message is sent with the
   * requested attributes, every scored attribute's summary score is
   * collected (the answer's `error` key is looked at but changes nothing),
   * and each attribute's collection is reduced to `sum * 100 / count`.
   */
  method MessageStats(messages: seq<string>, config: set<string>, analyze: Service)
    returns (stats: map<string, real>)
    requires AnswersWellFormed(messages, config, analyze)
    ensures AllHaveSummaryScores(Responses(messages, config, analyze))
    ensures stats == Aggregate(Responses(messages, config, analyze))
  {
    ghost var rs := Responses(messages, config, analyze);
    var channel: map<string, seq<real>> := map[];
    var i := 0;
    while i < |messages|
      invariant 0 <= i <= |messages|
      invariant channel.Keys == Returned(rs[..i])
      invariant forall a :: Collected(channel, a) == Scores(rs[..i], a)
    {
      var response := analyze(i, messages[i], RequestedAttributes(config));
      assert response == rs[i];
      ScoresStep(rs, i);
      channel := CollectAnswer(channel, response);
      i := i + 1;
    }
    assert rs[..|messages|] == rs;
    CollectedAggregate(rs, channel);
    stats := map a | a in channel :: Percentage(channel[a]);
  }

  /** Once every answer has been collected, reducing the lists gives the reference aggregate. */
  lemma CollectedAggregate(rs: seq<Response>, channel: map<string, seq<real>>)
    requires AllHaveSummaryScores(rs)
    requires channel.Keys == Returned(rs)
    requires forall a :: Collected(channel, a) == Scores(rs, a)
    ensures forall a :: a in channel ==> |channel[a]| > 0
    ensures (map a | a in channel :: Percentage(channel[a])) == Aggregate(rs)
  {
    ReturnedHaveScores(rs);
    forall a | a in channel
      ensures channel[a] == Scores(rs, a)
    {
      assert Collected(channel, a) == Scores(rs, a);
    }
  }

  // ---------------------------------------------------------------------------
  // Properties of the aggregate
  // ---------------------------------------------------------------------------

  /**
   * The aggregate's keys are exactly the names some answer scores: an
   * attribute requested but never scored is absent, and one scored without
   * being requested is present.
   */
  lemma {:induction false} AggregateKeys(rs: seq<Response>, a: string)
    requires AllHaveSummaryScores(rs)
    ensures a in Aggregate(rs) <==> exists i :: 0 <= i < |rs| && a in ScoredAttributes(rs[i])
  {
    if |rs| > 0 {
      var init := rs[..|rs| - 1];
      AggregateKeys(init, a);
      if a in Returned(init) {
        var i :| 0 <= i < |init| && a in ScoredAttributes(init[i]);
        assert rs[i] == init[i];
      }
      if exists i :: 0 <= i < |rs| && a in ScoredAttributes(rs[i]) {
        var i :| 0 <= i < |rs| && a in ScoredAttributes(rs[i]);
        if i < |rs| - 1 {
          assert init[i] == rs[i];
        }
      }
    }
  }

  /** Nothing to analyze, nothing reported. */
  lemma AggregateOfNothing()
    ensures Aggregate([]) == map[]
  {
  }

  predicate ScoresInUnitRange(r: Response)
    requires HasSummaryScores(r)
  {
    r.attributeScores.Some? ==>
      forall a :: a in r.attributeScores.value ==>
        0.0 <= r.attributeScores.value[a].summaryScore.value <= 1.0
  }

  lemma {:induction false} SumBounds(s: seq<real>)
    requires forall i :: 0 <= i < |s| ==> 0.0 <= s[i] <= 1.0
    ensures 0.0 <= Sum(s) <= |s| as real
  {
    if |s| > 0 {
      SumBounds(s[..|s| - 1]);
    }
  }

  lemma {:induction false} CollectedScoresInUnitRange(rs: seq<Response>, a: string)
    requires AllHaveSummaryScores(rs)
    requires forall r :: r in rs ==> ScoresInUnitRange(r)
    ensures forall i :: 0 <= i < |Scores(rs, a)| ==> 0.0 <= Scores(rs, a)[i] <= 1.0
  {
    if |rs| > 0 {
      CollectedScoresInUnitRange(rs[..|rs| - 1], a);
      assert rs[|rs| - 1] in rs;
    }
  }

  /** Each reported value is 100 times the mean of the attribute's collected summary scores. */
  lemma AggregateIsScaledMean(rs: seq<Response>, a: string)
    requires AllHaveSummaryScores(rs)
    requires a in Returned(rs)
    ensures a in Aggregate(rs)
    ensures |Scores(rs, a)| > 0
    ensures Aggregate(rs)[a] == 100.0 * Mean(Scores(rs, a))
  {
    ReturnedIffScored(rs, a);
    PercentageIsScaledMean(Scores(rs, a));
  }

  /** Two answers scoring TOXICITY 0.2 and 0.8 report TOXICITY at 50 and nothing else. */
  lemma AggregateExample()
    ensures var rs := [
        Response(false, Some(map["TOXICITY" := AttributeScore(Some(0.2))])),
        Response(false, Some(map["TOXICITY" := AttributeScore(Some(0.8))]))];
      AllHaveSummaryScores(rs) && Aggregate(rs) == map["TOXICITY" := 50.0]
  {
    var rs := [
      Response(false, Some(map["TOXICITY" := AttributeScore(Some(0.2))])),
      Response(false, Some(map["TOXICITY" := AttributeScore(Some(0.8))]))];
    TwoAnswersOneAttribute("TOXICITY", 0.2, 0.8);
    assert Sum([0.2, 0.8]) == 1.0 by {
      assert [0.2, 0.8][..1] == [0.2] && [0.2][..0] == [];
    }
    var agg := Aggregate(rs);
    assert "TOXICITY" in agg;
    assert agg["TOXICITY"] == Percentage([0.2, 0.8]) == 50.0;
    assert agg.Keys == map["TOXICITY" := 50.0].Keys;
  }

  lemma TwoAnswersOneAttribute(a: string, x: real, y: real)
    ensures var rs := [
        Response(false, Some(map[a := AttributeScore(Some(x))])),
        Response(false, Some(map[a := AttributeScore(Some(y))]))];
      && AllHaveSummaryScores(rs)
      && Returned(rs) == {a}
      && Scores(rs, a) == [x, y]
  {
    var r1 := Response(false, Some(map[a := AttributeScore(Some(x))]));
    var r2 := Response(false, Some(map[a := AttributeScore(Some(y))]));
    var rs := [r1, r2];
    assert rs[..1] == [r1] && [r1][..0] == [];
    assert Scores([r1], a) == [] + [x];
    assert Scores(rs, a) == [x] + [y];
    assert Returned([r1]) == {} + {a};
    assert Returned(rs) == {a} + {a};
  }

  /** When every summary score lies in [0, 1], every reported value lies in [0, 100]. */
  lemma AggregateBounded(rs: seq<Response>)
    requires AllHaveSummaryScores(rs)
    requires forall r :: r in rs ==> ScoresInUnitRange(r)
    ensures forall a :: a in Aggregate(rs) ==> 0.0 <= Aggregate(rs)[a] <= 100.0
  {
    forall a | a in Aggregate(rs)
      ensures 0.0 <= Aggregate(rs)[a] <= 100.0
    {
      ReturnedIffScored(rs, a);
      CollectedScoresInUnitRange(rs, a);
      PercentageBounds(Scores(rs, a));
    }
  }

  /** Two batches with the same scored names, totals and counts aggregate alike. */
  lemma AggregateCongruent(rs: seq<Response>, rs': seq<Response>)
    requires AllHaveSummaryScores(rs) && AllHaveSummaryScores(rs')
    requires Returned(rs) == Returned(rs')
    requires forall a :: Sum(Scores(rs, a)) == Sum(Scores(rs', a)) && |Scores(rs, a)| == |Scores(rs', a)|
    ensures Aggregate(rs) == Aggregate(rs')
  {
    var agg, agg' := Aggregate(rs), Aggregate(rs');
    assert agg.Keys == agg'.Keys;
    forall a | a in agg
      ensures agg[a] == agg'[a]
    {
      var s, s' := Scores(rs, a), Scores(rs', a);
      assert agg[a] == Percentage(s);
      assert agg'[a] == Percentage(s');
      assert Sum(s) == Sum(s') && |s| == |s'|;
    }
  }

  lemma {:induction false} ScoresAppend(xs: seq<Response>, ys: seq<Response>, a: string)
    requires AllHaveSummaryScores(xs) && AllHaveSummaryScores(ys)
    ensures AllHaveSummaryScores(xs + ys)
    ensures Scores(xs + ys, a) == Scores(xs, a) + Scores(ys, a)
    ensures Returned(xs + ys) == Returned(xs) + Returned(ys)
  {
    if |ys| > 0 {
      var ys' := ys[..|ys| - 1];
      ScoresAppend(xs, ys', a);
      assert (xs + ys)[..|xs + ys| - 1] == xs + ys';
      assert (xs + ys)[|xs + ys| - 1] == ys[|ys| - 1];
    } else {
      assert xs + ys == xs;
    }
  }

  lemma {:induction false} SumAppend(s: seq<real>, t: seq<real>)
    ensures Sum(s + t) == Sum(s) + Sum(t)
  {
    if |t| > 0 {
      SumAppend(s, t[..|t| - 1]);
      assert (s + t)[..|s + t| - 1] == s + t[..|t| - 1];
    } else {
      assert s + t == s;
    }
  }

  /**
   * An answer without `attributeScores`, wherever it sits in the batch,
   * changes nothing and does not cut the batch short.
   */
  lemma AnswerWithoutScoresIgnored(xs: seq<Response>, r: Response, ys: seq<Response>)
    requires AllHaveSummaryScores(xs) && AllHaveSummaryScores(ys)
    requires r.attributeScores.None?
    ensures AllHaveSummaryScores(xs + [r] + ys)
    ensures Aggregate(xs + [r] + ys) == Aggregate(xs + ys)
  {
    NoScoresSkipped(xs, r, ys, "");
    forall a
      ensures Scores(xs + [r] + ys, a) == Scores(xs + ys, a)
    {
      NoScoresSkipped(xs, r, ys, a);
    }
    AggregateCongruent(xs + [r] + ys, xs + ys);
  }

  lemma NoScoresSkipped(xs: seq<Response>, r: Response, ys: seq<Response>, a: string)
    requires AllHaveSummaryScores(xs) && AllHaveSummaryScores(ys)
    requires r.attributeScores.None?
    ensures AllHaveSummaryScores(xs + [r]) && AllHaveSummaryScores(xs + [r] + ys) && AllHaveSummaryScores(xs + ys)
    ensures Scores(xs + [r] + ys, a) == Scores(xs + ys, a)
    ensures Returned(xs + [r] + ys) == Returned(xs + ys)
  {
    assert (xs + [r])[..|xs|] == xs;
    assert AllHaveSummaryScores(xs + [r]);
    assert Scores(xs + [r], a) == Scores(xs, a) + [];
    assert Returned(xs + [r]) == Returned(xs);
    ScoresAppend(xs + [r], ys, a);
    ScoresAppend(xs, ys, a);
  }

  /**
   * Only the `attributeScores` of an answer matter: answers that differ in
   * their `error` key alone aggregate to the same result, so an answer that
   * carries both an error and scores still contributes its scores.
   */
  lemma {:induction false} ErrorKeyIgnored(rs: seq<Response>, rs': seq<Response>)
    requires AllHaveSummaryScores(rs)
    requires |rs'| == |rs|
    requires forall i :: 0 <= i < |rs| ==> rs'[i].attributeScores == rs[i].attributeScores
    ensures AllHaveSummaryScores(rs')
    ensures Aggregate(rs') == Aggregate(rs)
  {
    assert AllHaveSummaryScores(rs') by {
      forall r | r in rs' ensures HasSummaryScores(r) {
        var i :| 0 <= i < |rs'| && rs'[i] == r;
        assert rs[i] in rs;
      }
    }
    ErrorKeyIgnoredScores(rs, rs');
    AggregateCongruent(rs', rs);
  }

  lemma {:induction false} ErrorKeyIgnoredScores(rs: seq<Response>, rs': seq<Response>)
    requires AllHaveSummaryScores(rs) && AllHaveSummaryScores(rs')
    requires |rs'| == |rs|
    requires forall i :: 0 <= i < |rs| ==> rs'[i].attributeScores == rs[i].attributeScores
    ensures Returned(rs') == Returned(rs)
    ensures forall a :: Scores(rs', a) == Scores(rs, a)
  {
    if |rs| > 0 {
      ErrorKeyIgnoredScores(rs[..|rs| - 1], rs'[..|rs| - 1]);
    }
  }

  /** Splitting a batch around one of its answers. */
  lemma ScoresAround(rs: seq<Response>, j: nat, a: string)
    requires AllHaveSummaryScores(rs)
    requires j < |rs|
    ensures AllHaveSummaryScores(rs[..j] + rs[j + 1..])
    ensures Sum(Scores(rs, a)) == Sum(Scores(rs[..j] + rs[j + 1..], a)) + Sum(Contribution(rs[j], a))
    ensures |Scores(rs, a)| == |Scores(rs[..j] + rs[j + 1..], a)| + |Contribution(rs[j], a)|
    ensures Returned(rs) == Returned(rs[..j] + rs[j + 1..]) + ScoredAttributes(rs[j])
  {
    var pre, post := Scores(rs[..j], a), Scores(rs[j + 1..], a);
    ScoresSplit(rs, j, a);
    SumAppend(pre, Contribution(rs[j], a));
    SumAppend(pre + Contribution(rs[j], a), post);
    SumAppend(pre, post);
  }

  lemma ScoresSplit(rs: seq<Response>, j: nat, a: string)
    requires AllHaveSummaryScores(rs)
    requires j < |rs|
    ensures AllHaveSummaryScores(rs[..j]) && AllHaveSummaryScores(rs[j + 1..])
    ensures AllHaveSummaryScores(rs[..j] + rs[j + 1..])
    ensures Scores(rs, a) == Scores(rs[..j], a) + Contribution(rs[j], a) + Scores(rs[j + 1..], a)
    ensures Scores(rs[..j] + rs[j + 1..], a) == Scores(rs[..j], a) + Scores(rs[j + 1..], a)
    ensures Returned(rs) == Returned(rs[..j] + rs[j + 1..]) + ScoredAttributes(rs[j])
  {
    var pre, post := rs[..j], rs[j + 1..];
    assert rs == pre + [rs[j]] + post;
    assert rs[j] in rs;
    assert (pre + [rs[j]])[..j] == pre;
    ScoresAppend(pre + [rs[j]], post, a);
    ScoresAppend(pre, post, a);
  }

  lemma {:induction false} PermutationKeepsTotals(rs: seq<Response>, rs': seq<Response>, a: string)
    requires AllHaveSummaryScores(rs) && AllHaveSummaryScores(rs')
    requires multiset(rs) == multiset(rs')
    ensures Sum(Scores(rs, a)) == Sum(Scores(rs', a))
    ensures |Scores(rs, a)| == |Scores(rs', a)|
    ensures Returned(rs) == Returned(rs')
    decreases |rs|
  {
    if |rs| > 0 {
      var init, last := rs[..|rs| - 1], rs[|rs| - 1];
      assert rs == init + [last];
      var j := RemoveMatching(init, last, rs');
      ScoresAround(rs', j, a);
      PermutationKeepsTotals(init, rs'[..j] + rs'[j + 1..], a);
      SumAppend(Scores(init, a), Contribution(last, a));
    } else {
      assert |multiset(rs')| == 0;
    }
  }

  /** In a permutation of `xs + [x]`, some position holds `x`, and removing it leaves a permutation of `xs`. */
  lemma RemoveMatching<T>(xs: seq<T>, x: T, ys: seq<T>) returns (j: nat)
    requires multiset(xs + [x]) == multiset(ys)
    ensures j < |ys| && ys[j] == x
    ensures multiset(xs) == multiset(ys[..j] + ys[j + 1..])
  {
    assert x in multiset(ys);
    j :| 0 <= j < |ys| && ys[j] == x;
    var rest := ys[..j] + ys[j + 1..];
    assert ys == ys[..j] + [x] + ys[j + 1..];
    assert multiset(ys) == multiset(rest) + multiset{x};
    assert multiset(xs + [x]) == multiset(xs) + multiset{x};
    forall y
      ensures multiset(xs)[y] == multiset(rest)[y]
    {
      assert multiset(xs + [x])[y] == multiset(ys)[y];
    }
  }

  /** The order in which the messages are analyzed does not matter. */
  lemma AggregateOrderIndependent(rs: seq<Response>, rs': seq<Response>)
    requires AllHaveSummaryScores(rs)
    requires multiset(rs) == multiset(rs')
    ensures AllHaveSummaryScores(rs')
    ensures Aggregate(rs') == Aggregate(rs)
  {
    assert AllHaveSummaryScores(rs') by {
      forall r | r in rs' ensures HasSummaryScores(r) {
        assert r in multiset(rs');
      }
    }
    PermutationKeepsTotals(rs, rs', "");
    forall a
      ensures Sum(Scores(rs, a)) == Sum(Scores(rs', a))
      ensures |Scores(rs, a)| == |Scores(rs', a)|
    {
      PermutationKeepsTotals(rs, rs', a);
    }
    AggregateCongruent(rs', rs);
  }

  // ---------------------------------------------------------------------------
  // Report titles and the channel report
  // ---------------------------------------------------------------------------

  /** `" ".join(attribute.lower().capitalize().split("_"))` */
  function DisplayName(attribute: string): string
  {
    Join(' ', Split(Capitalize(Lower(attribute)), '_'))
  }

  /**
   * The title keeps the attribute's length, upper-cases its first character,
   * lower-cases the rest and turns every underscore into a space.
   */
  lemma DisplayNameShape(attribute: string)
    ensures |DisplayName(attribute)| == |attribute|
    ensures forall i :: 0 <= i < |attribute| ==>
      DisplayName(attribute)[i] ==
        (if attribute[i] == '_' then ' '
         else if i == 0 then ToUpper(attribute[i])
         else ToLower(attribute[i]))
    ensures '_' !in DisplayName(attribute)
  {
    var c := Capitalize(Lower(attribute));
    JoinSplitReplaces(c, '_', ' ');
    forall i | 0 <= i < |attribute|
      ensures c[i] == '_' <==> attribute[i] == '_'
      ensures c[i] != '_' ==> c[i] == (if i == 0 then ToUpper(attribute[i]) else ToLower(attribute[i]))
    {
    }
  }

  lemma DisplayNameOfSevereToxicity()
    ensures DisplayName("SEVERE_TOXICITY") == "Severe toxicity"
  {
    CapitalizeSevereToxicity();
    ReplaceInSevereToxicity();
    JoinSplitReplaces("Severe_toxicity", '_', ' ');
  }

  lemma CapitalizeSevereToxicity()
    ensures Capitalize(Lower("SEVERE_TOXICITY")) == "Severe_toxicity"
  {
    LowerSevereToxicity();
    CapitalizeLowered();
  }

  lemma LowerSevereToxicity()
    ensures Lower("SEVERE_TOXICITY") == "severe_toxicity"
  {
    LowerLiteral("SEVERE_TOXICITY", "severe_toxicity");
  }

  lemma CapitalizeLowered()
    ensures Capitalize("severe_toxicity") == "Severe_toxicity"
  {
    var l := "severe_toxicity";
    assert l[1..] == "evere_toxicity";
    LowerLiteral("evere_toxicity", "evere_toxicity");
    assert "Severe_toxicity" == [ToUpper('s')] + "evere_toxicity";
  }

  /** Checks a lower-cased literal one character at a time. */
  lemma LowerLiteral(s: string, l: string)
    requires |s| == |l|
    requires forall i :: 0 <= i < |s| ==> ToLower(s[i]) == l[i]
    ensures Lower(s) == l
  {
  }

  lemma ReplaceInSevereToxicity()
    ensures Replace("Severe_toxicity", '_', ' ') == "Severe toxicity"
  {
    var capitalized, title := "Severe_toxicity", "Severe toxicity";
    forall i | 0 <= i < |capitalized|
      ensures Replace(capitalized, '_', ' ')[i] == title[i]
    {
    }
  }

  /** At most this many of the latest messages are analyzed. */
  const HistoryLimit: nat := 50

  /** `channel.history(limit=50)`: the latest messages, newest first. */
  function LatestMessages(history: seq<string>): (latest: seq<string>)
    ensures |latest| == if |history| < HistoryLimit then |history| else HistoryLimit
    ensures latest <= history
  {
    if |history| <= HistoryLimit then history else history[..HistoryLimit]
  }

  datatype ChannelReport =
    | ApiKeyMissing
    | NoMessages
    /** "An error occured.": no attribute was scored at all. */
    | NothingScored
    /** The embed's fields: title and percentage per scored attribute. */
    | Report(fields: set<(string, real)>)

  /**
   * The `analyzechannel` command: refuses without an API key or without
   * messages, otherwise reports one field per scored attribute.
   */
  method AnalyzeChannel(apiKey: Option<string>, history: seq<string>, config: set<string>, analyze: Service)
    returns (report: ChannelReport)
    requires apiKey.Some? ==> AnswersWellFormed(LatestMessages(history), config, analyze)
    ensures apiKey.None? <==> report == ApiKeyMissing
    ensures apiKey.Some? && |history| == 0 <==> report == NoMessages
    ensures apiKey.Some? ==> AllHaveSummaryScores(Responses(LatestMessages(history), config, analyze))
    ensures apiKey.Some? && |history| > 0 ==>
      var stats := Aggregate(Responses(LatestMessages(history), config, analyze));
      && (report == NothingScored <==> stats == map[])
      && (report.Report? <==> stats != map[])
      && (report.Report? ==> report.fields == set a | a in stats :: (DisplayName(a), stats[a]))
  {
    if apiKey.None? {
      return ApiKeyMissing;
    }
    var messages := LatestMessages(history);
    if |messages| == 0 {
      return NoMessages;
    }
    var stats := MessageStats(messages, config, analyze);
    if stats == map[] {
      return NothingScored;
    }
    report := Report(set a | a in stats :: (DisplayName(a), stats[a]));
  }

  // ---------------------------------------------------------------------------
  // The configuration commands
  // ---------------------------------------------------------------------------

  datatype ConfigReply =
    | NotAnAttribute
    | AlreadyConfigured
    | NotConfigured
    | AttributeAdded(attribute: string)
    | AttributeRemoved(attribute: string)

  /** A command's effect: the new configuration and the reply sent. */
  datatype Transition = Transition(config: set<string>, reply: ConfigReply)

  /** `perspectiveset addattr` */
  function AddAttr(config: set<string>, attribute: string): (t: Transition)
    ensures attribute !in Vocabulary ==> t == Transition(config, NotAnAttribute)
    ensures attribute in Vocabulary && attribute in config ==> t == Transition(config, AlreadyConfigured)
    ensures attribute in Vocabulary && attribute !in config ==>
      && t.reply == AttributeAdded(attribute)
      && attribute in t.config
      && t.config - {attribute} == config
  {
    if attribute !in Vocabulary then Transition(config, NotAnAttribute)
    else if attribute in config then Transition(config, AlreadyConfigured)
    else Transition(config + {attribute}, AttributeAdded(attribute))
  }

  /** `perspectiveset removeattr` */
  function RemoveAttr(config: set<string>, attribute: string): (t: Transition)
    ensures attribute !in Vocabulary ==> t == Transition(config, NotAnAttribute)
    ensures attribute in Vocabulary && attribute !in config ==> t == Transition(config, NotConfigured)
    ensures attribute in Vocabulary && attribute in config ==>
      && t.reply == AttributeRemoved(attribute)
      && attribute !in t.config
      && t.config + {attribute} == config
  {
    if attribute !in Vocabulary then Transition(config, NotAnAttribute)
    else if attribute !in config then Transition(config, NotConfigured)
    else Transition(config - {attribute}, AttributeRemoved(attribute))
  }

  /** Adding a valid attribute that was not configured and then removing it restores the configuration. */
  lemma AddThenRemove(config: set<string>, attribute: string)
    requires attribute in Vocabulary && attribute !in config
    ensures RemoveAttr(AddAttr(config, attribute).config, attribute).config == config
  {
  }

  /** Removing a configured attribute and adding it back restores the configuration. */
  lemma RemoveThenAdd(config: set<string>, attribute: string)
    requires attribute in config
    ensures AddAttr(RemoveAttr(config, attribute).config, attribute).config == config
  {
  }

  datatype Command = Add(attribute: string) | Remove(attribute: string)

  /** The configuration after a sequence of commands, applied first to last. */
  function Run(config: set<string>, commands: seq<Command>): set<string>
    decreases |commands|
  {
    if |commands| == 0 then config
    else
      var next := match commands[0]
        case Add(a) => AddAttr(config, a).config
        case Remove(a) => RemoveAttr(config, a).config;
      Run(next, commands[1..])
  }

  /** No sequence of commands takes a configuration outside the vocabulary. */
  lemma {:induction false} RunStaysInVocabulary(config: set<string>, commands: seq<Command>)
    requires config <= Vocabulary
    ensures Run(config, commands) <= Vocabulary
    decreases |commands|
  {
    if |commands| > 0 {
      var next := match commands[0]
        case Add(a) => AddAttr(config, a).config
        case Remove(a) => RemoveAttr(config, a).config;
      RunStaysInVocabulary(next, commands[1..]);
    }
  }

  /**
   * Every configuration reachable from the default asks the service only
   * for attributes of the vocabulary, and always for at least one.
   */
  lemma ReachableConfigRequestsVocabulary(commands: seq<Command>)
    ensures Run(DefaultAttributes, commands) <= Vocabulary
    ensures RequestedAttributes(Run(DefaultAttributes, commands)) <= Vocabulary
  {
    RunStaysInVocabulary(DefaultAttributes, commands);
  }
}
