/** The two stages of bbcrack's search. Stage 1 applies every candidate
    transform to the raw data, scores it by the weighted counts of a few
    simple patterns and keeps the `keep` best; stage 2 applies each kept
    transform again, scores it by the weighted lengths of the matches of the
    full pattern set and keeps the `save` best. The pattern engine is a
    parameter: `count` gives, for some data, each stage-1 pattern's weight
    and number of occurrences, and `scan` each stage-2 pattern's name,
    weight and matches. */
module Scoring {
  import opened Bytes
  import opened Transforms
  import opened Catalog
  import opened Ranking
  import TransformMethods

  /** One result of `Balbuzard.count`: a pattern's weight and how often it
      occurs. */
  datatype PatternCount = PatternCount(weight: int, count: nat)

  /** One match of a pattern: where it starts and the bytes it covers. */
  datatype Match = Match(index: nat, text: seq<byte>)

  /** One result of `Balbuzard.scan`: a pattern and its matches. */
  datatype PatternScan = PatternScan(name: string, weight: int, matches: seq<Match>)

  // ---------------------------------------------------------------------
  // Scores.

  /** Stage 1: the sum of count × weight. */
  function CountScore(hits: seq<PatternCount>): int
  {
    if hits == [] then 0
    else CountScore(hits[..|hits| - 1]) + hits[|hits| - 1].count * hits[|hits| - 1].weight
  }

  /** The sum of len(match) × weight over the matches of one pattern. */
  function MatchScore(ms: seq<Match>, weight: int): int
  {
    if ms == [] then 0
    else MatchScore(ms[..|ms| - 1], weight) + |ms[|ms| - 1].text| * weight
  }

  /** Stage 2: the sum of len(match) × weight over all patterns. */
  function ScanScore(scans: seq<PatternScan>): int
  {
    if scans == [] then 0
    else
      var last := scans[|scans| - 1];
      ScanScore(scans[..|scans| - 1]) + MatchScore(last.matches, last.weight)
  }

  /** The stage-1 score adds up over the pattern results: it does not
      depend on how they are grouped. */
  lemma {:induction false} CountScoreAppend(a: seq<PatternCount>, b: seq<PatternCount>)
    ensures CountScore(a + b) == CountScore(a) + CountScore(b)
  {
    if b == [] {
      assert a + b == a;
    } else {
      CountScoreAppend(a, b[..|b| - 1]);
      assert (a + b)[..|a + b| - 1] == a + b[..|b| - 1];
    }
  }

  /** With no negative weight the stage-1 score is not negative, and with
      no occurrence it is 0. */
  lemma {:induction false} CountScoreBounds(hits: seq<PatternCount>)
    ensures (forall i | 0 <= i < |hits| :: hits[i].weight >= 0) ==> CountScore(hits) >= 0
    ensures (forall i | 0 <= i < |hits| :: hits[i].count == 0) ==> CountScore(hits) == 0
  {
    if hits != [] {
      var init := hits[..|hits| - 1];
      assert forall i | 0 <= i < |init| :: init[i] == hits[i];
      CountScoreBounds(init);
    }
  }

  /** The weighted length of one pattern's matches is the weight times
      their total length. */
  function TotalLength(ms: seq<Match>): nat
  {
    if ms == [] then 0 else TotalLength(ms[..|ms| - 1]) + |ms[|ms| - 1].text|
  }

  lemma {:induction false} MatchScoreIsWeightedLength(ms: seq<Match>, weight: int)
    ensures MatchScore(ms, weight) == TotalLength(ms) * weight
  {
    if ms != [] {
      MatchScoreIsWeightedLength(ms[..|ms| - 1], weight);
      assert (TotalLength(ms[..|ms| - 1]) + |ms[|ms| - 1].text|) * weight
          == TotalLength(ms[..|ms| - 1]) * weight + |ms[|ms| - 1].text| * weight;
    }
  }

  /** With no negative weight the stage-2 score is not negative, and when
      no pattern matches it is 0. */
  lemma {:induction false} ScanScoreBounds(scans: seq<PatternScan>)
    ensures (forall i | 0 <= i < |scans| :: scans[i].weight >= 0) ==> ScanScore(scans) >= 0
    ensures (forall i | 0 <= i < |scans| :: scans[i].matches == []) ==> ScanScore(scans) == 0
  {
    if scans != [] {
      var init := scans[..|scans| - 1];
      var last := scans[|scans| - 1];
      assert forall i | 0 <= i < |init| :: init[i] == scans[i];
      ScanScoreBounds(init);
      MatchScoreIsWeightedLength(last.matches, last.weight);
      if last.weight >= 0 {
        assert TotalLength(last.matches) * last.weight >= 0;
      }
    }
  }

  // ---------------------------------------------------------------------
  // Stage 1.

  /** The stage-1 result of one transform. */
  function Stage1Result(t: Transform, raw: seq<byte>, count: seq<byte> -> seq<PatternCount>): Scored<Transform>
  {
    Scored(t, CountScore(count(Apply(t, raw))))
  }

  /** `results1` before the sort: one result per transform, in the order
      given. */
  function Stage1Results(ts: seq<Transform>, raw: seq<byte>, count: seq<byte> -> seq<PatternCount>): seq<Scored<Transform>>
  {
    if ts == [] then []
    else Stage1Results(ts[..|ts| - 1], raw, count) + [Stage1Result(ts[|ts| - 1], raw, count)]
  }

  /** `results1` holds each candidate, in enumeration order, with the
      score of its transformed data. */
  lemma {:induction false} Stage1ResultsAt(ts: seq<Transform>, raw: seq<byte>, count: seq<byte> -> seq<PatternCount>)
    ensures |Stage1Results(ts, raw, count)| == |ts|
    ensures forall i | 0 <= i < |ts| ::
      Stage1Results(ts, raw, count)[i] == Scored(ts[i], CountScore(count(Apply(ts[i], raw))))
  {
    if ts != [] {
      var init := ts[..|ts| - 1];
      Stage1ResultsAt(init, raw, count);
      assert forall i | 0 <= i < |init| :: init[i] == ts[i];
    }
  }

  /** One more transform of a class appends its result, in the form the
      loop over the class's parameters uses. */
  lemma Stage1ResultsStep(ts: seq<Transform>, p: nat, raw: seq<byte>, count: seq<byte> -> seq<PatternCount>)
    requires p < |ts|
    ensures Stage1Results(ts[..p + 1], raw, count) == Stage1Results(ts[..p], raw, count) + [Stage1Result(ts[p], raw, count)]
  {
    assert ts[..p + 1][..p] == ts[..p];
  }

  lemma {:induction false} Stage1ResultsAppend(a: seq<Transform>, b: seq<Transform>, raw: seq<byte>,
                                               count: seq<byte> -> seq<PatternCount>)
    ensures Stage1Results(a + b, raw, count) == Stage1Results(a, raw, count) + Stage1Results(b, raw, count)
  {
    if b == [] {
      assert a + b == a;
    } else {
      Stage1ResultsAppend(a, b[..|b| - 1], raw, count);
      assert (a + b)[..|a + b| - 1] == a + b[..|b| - 1];
    }
  }

  lemma CandidatesStep(classes: seq<Family>, c: nat)
    requires c < |classes|
    ensures Candidates(classes[..c + 1]) == Candidates(classes[..c]) + Instances(classes[c])
  {
    assert classes[..c + 1][..c] == classes[..c];
  }

  /** The score loop of stage 1 over the pattern results. */
  method CountLoop(hits: seq<PatternCount>) returns (score: int)
    ensures score == CountScore(hits)
  {
    score := 0;
    for h := 0 to |hits|
      invariant score == CountScore(hits[..h])
    {
      assert hits[..h + 1][..h] == hits[..h];
      score := score + hits[h].count * hits[h].weight;
    }
    assert hits[..|hits|] == hits;
  }

  /** The loop of stage 1 over the parameters of one class: each
      parameter is turned into a transform, which is applied and scored. */
  method ScoreClass(raw: seq<byte>, cls: Family, count: seq<byte> -> seq<PatternCount>)
    returns (results: seq<Scored<Transform>>)
    ensures results == Stage1Results(Instances(cls), raw, count)
  {
    var ps := Params(cls);
    ghost var ts := Instances(cls);
    results := [];
    for p := 0 to |ps|
      invariant results == Stage1Results(ts[..p], raw, count)
    {
      InstancesAt(cls, p);
      var transform := Construct(cls, ps[p]).value;
      var data := TransformMethods.TransformString(transform, raw);
      var score := CountLoop(count(data));
      Stage1ResultsStep(ts, p, raw, count);
      results := results + [Scored(transform, score)];
    }
    assert ts[..|ps|] == ts;
  }

  /** Stage 1: every parameter of every class, transformed and scored,
      then sorted by score and cut to the `keep` best. */
  method Stage1(raw: seq<byte>, classes: seq<Family>, count: seq<byte> -> seq<PatternCount>, keep: int)
    returns (results1: seq<Scored<Transform>>)
    ensures results1 == TopK(Stage1Results(Candidates(classes), raw, count), keep)
  {
    results1 := [];
    for c := 0 to |classes|
      invariant results1 == Stage1Results(Candidates(classes[..c]), raw, count)
    {
      var more := ScoreClass(raw, classes[c], count);
      CandidatesStep(classes, c);
      Stage1ResultsAppend(Candidates(classes[..c]), Instances(classes[c]), raw, count);
      results1 := results1 + more;
    }
    assert classes[..|classes|] == classes;
    results1 := SortDesc(results1);
    results1 := PyTake(results1, keep);
  }

  // ---------------------------------------------------------------------
  // Stage 2.

  /** The stage-2 result of one transform: the transform, its data
      computed again from the raw data, and the score of the matches. */
  function Stage2Result(t: Transform, raw: seq<byte>, scan: seq<byte> -> seq<PatternScan>)
    : Scored<(Transform, seq<byte>)>
  {
    var data := Apply(t, raw);
    Scored((t, data), ScanScore(scan(data)))
  }

  /** `results` before the sort: one result per stage-1 survivor, in the
      order of `results1`. */
  function Stage2Results(results1: seq<Scored<Transform>>, raw: seq<byte>, scan: seq<byte> -> seq<PatternScan>)
    : seq<Scored<(Transform, seq<byte>)>>
  {
    if results1 == [] then []
    else
      Stage2Results(results1[..|results1| - 1], raw, scan)
        + [Stage2Result(results1[|results1| - 1].item, raw, scan)]
  }

  /** Stage 2 rescores exactly the transforms stage 1 kept, in their
      order, on data recomputed from the raw data; the stage-1 score plays
      no part. */
  lemma {:induction false} Stage2ResultsAt(results1: seq<Scored<Transform>>, raw: seq<byte>,
                                           scan: seq<byte> -> seq<PatternScan>)
    ensures |Stage2Results(results1, raw, scan)| == |results1|
    ensures forall i | 0 <= i < |results1| ::
      var t := results1[i].item;
      Stage2Results(results1, raw, scan)[i] == Scored((t, Apply(t, raw)), ScanScore(scan(Apply(t, raw))))
  {
    if results1 != [] {
      var init := results1[..|results1| - 1];
      Stage2ResultsAt(init, raw, scan);
      assert forall i | 0 <= i < |init| :: init[i] == results1[i];
    }
  }

  /** The score loops of stage 2 over the patterns and their matches. */
  method ScanLoop(scans: seq<PatternScan>) returns (score: int)
    ensures score == ScanScore(scans)
  {
    score := 0;
    for s := 0 to |scans|
      invariant score == ScanScore(scans[..s])
    {
      var ms := scans[s].matches;
      var weight := scans[s].weight;
      ghost var before := score;
      for m := 0 to |ms|
        invariant score == before + MatchScore(ms[..m], weight)
      {
        assert ms[..m + 1][..m] == ms[..m];
        score := score + |ms[m].text| * weight;
      }
      assert ms[..|ms|] == ms;
      assert scans[..s + 1][..s] == scans[..s];
    }
    assert scans[..|scans|] == scans;
  }

  /** Stage 2: every transform kept by stage 1 applied again and scored
      with the full patterns, then sorted by score and cut to the `save`
      best. */
  method Stage2(raw: seq<byte>, results1: seq<Scored<Transform>>, scan: seq<byte> -> seq<PatternScan>, save: int)
    returns (saved: seq<Scored<(Transform, seq<byte>)>>)
    ensures saved == TopK(Stage2Results(results1, raw, scan), save)
  {
    var results: seq<Scored<(Transform, seq<byte>)>> := [];
    for r := 0 to |results1|
      invariant results == Stage2Results(results1[..r], raw, scan)
    {
      var transform := results1[r].item;
      var data := TransformMethods.TransformString(transform, raw);
      var score := ScanLoop(scan(data));
      assert results1[..r + 1][..r] == results1[..r];
      results := results + [Scored((transform, data), score)];
    }
    assert results1[..|results1|] == results1;
    results := SortDesc(results);
    saved := PyTake(results, save);
  }
}
