/** Harvest mode (`-m`) of bbcrack: every candidate transform is applied
    to the raw data, the full pattern set is searched in the result, and
    every match longer than three bytes is reported, in the order the loops
    meet them. The pattern engine is the parameter `scan`. */
module Harvest {
  import opened Bytes
  import opened Transforms
  import opened Catalog
  import opened Scoring
  import TransformMethods

  /** One reported line: the transform, the pattern, where the match
      starts and what it covers. */
  datatype Record = Record(transform: Transform, pattern: string, index: nat, text: seq<byte>)

  /** A match is reported when it is longer than three bytes. */
  predicate Reported(m: Match)
  {
    |m.text| > 3
  }

  /** The records of one pattern's matches, in match order. */
  function KeepMatches(t: Transform, name: string, ms: seq<Match>): seq<Record>
  {
    if ms == [] then []
    else
      var m := ms[|ms| - 1];
      KeepMatches(t, name, ms[..|ms| - 1]) + (if Reported(m) then [Record(t, name, m.index, m.text)] else [])
  }

  /** The records of one transform's data, pattern by pattern. */
  function KeepScans(t: Transform, scans: seq<PatternScan>): seq<Record>
  {
    if scans == [] then []
    else
      var s := scans[|scans| - 1];
      KeepScans(t, scans[..|scans| - 1]) + KeepMatches(t, s.name, s.matches)
  }

  /** The records of one transform applied to the raw data. */
  function TransformRecords(t: Transform, raw: seq<byte>, scan: seq<byte> -> seq<PatternScan>): seq<Record>
  {
    KeepScans(t, scan(Apply(t, raw)))
  }

  /** The records of a list of transforms, transform by transform. */
  function HarvestAll(ts: seq<Transform>, raw: seq<byte>, scan: seq<byte> -> seq<PatternScan>): seq<Record>
  {
    if ts == [] then []
    else HarvestAll(ts[..|ts| - 1], raw, scan) + TransformRecords(ts[|ts| - 1], raw, scan)
  }

  /** A record of one pattern is exactly a match of it longer than three
      bytes. */
  lemma {:induction false} KeepMatchesMembers(t: Transform, name: string, ms: seq<Match>, r: Record)
    ensures r in KeepMatches(t, name, ms) <==>
      r.transform == t && r.pattern == name && Match(r.index, r.text) in ms && |r.text| > 3
  {
    if ms != [] {
      var init := ms[..|ms| - 1];
      KeepMatchesMembers(t, name, init, r);
      assert ms == init + [ms[|ms| - 1]];
    }
  }

  /** A record of one transform is exactly a match longer than three bytes
      of one of the patterns searched in its data. */
  lemma {:induction false} KeepScansMembers(t: Transform, scans: seq<PatternScan>, r: Record)
    ensures r in KeepScans(t, scans) <==>
      r.transform == t && |r.text| > 3 &&
      exists i | 0 <= i < |scans| :: scans[i].name == r.pattern && Match(r.index, r.text) in scans[i].matches
  {
    if scans != [] {
      var n := |scans| - 1;
      var init := scans[..n];
      KeepScansMembers(t, init, r);
      KeepMatchesMembers(t, scans[n].name, scans[n].matches, r);
      if r.transform == t && |r.text| > 3 {
        if i :| 0 <= i < |scans| && scans[i].name == r.pattern && Match(r.index, r.text) in scans[i].matches {
          if i < n {
            assert init[i] == scans[i];
          }
        }
        if i :| 0 <= i < |init| && init[i].name == r.pattern && Match(r.index, r.text) in init[i].matches {
          assert scans[i] == init[i];
        }
      }
    }
  }

  /** A record of harvest mode is exactly a record of one of the
      candidates' transformed data. */
  lemma {:induction false} HarvestMembers(ts: seq<Transform>, raw: seq<byte>, scan: seq<byte> -> seq<PatternScan>, r: Record)
    ensures r in HarvestAll(ts, raw, scan) <==>
      r.transform in ts && r in KeepScans(r.transform, scan(Apply(r.transform, raw)))
  {
    if ts != [] {
      var n := |ts| - 1;
      var init := ts[..n];
      HarvestMembers(init, raw, scan, r);
      KeepScansMembers(ts[n], scan(Apply(ts[n], raw)), r);
      assert ts == init + [ts[n]];
    }
  }

  /** No match of three bytes or fewer is ever reported. */
  lemma HarvestOnlyLong(ts: seq<Transform>, raw: seq<byte>, scan: seq<byte> -> seq<PatternScan>)
    ensures forall r | r in HarvestAll(ts, raw, scan) :: |r.text| > 3
  {
    forall r | r in HarvestAll(ts, raw, scan) ensures |r.text| > 3 {
      HarvestMembers(ts, raw, scan, r);
      KeepScansMembers(r.transform, scan(Apply(r.transform, raw)), r);
    }
  }

  /** One more transform appends its records. */
  lemma HarvestAllSnoc(ts: seq<Transform>, t: Transform, raw: seq<byte>, scan: seq<byte> -> seq<PatternScan>)
    ensures HarvestAll(ts + [t], raw, scan) == HarvestAll(ts, raw, scan) + TransformRecords(t, raw, scan)
  {
    assert (ts + [t])[..|ts|] == ts;
  }

  /** The same step, in the form the loop over a class's parameters
      uses. */
  lemma HarvestAllStep(ts: seq<Transform>, p: nat, raw: seq<byte>, scan: seq<byte> -> seq<PatternScan>)
    requires p < |ts|
    ensures HarvestAll(ts[..p + 1], raw, scan) == HarvestAll(ts[..p], raw, scan) + TransformRecords(ts[p], raw, scan)
  {
    assert ts[..p + 1][..p] == ts[..p];
  }

  lemma {:induction false} HarvestAllAppend(a: seq<Transform>, b: seq<Transform>, raw: seq<byte>,
                                            scan: seq<byte> -> seq<PatternScan>)
    ensures HarvestAll(a + b, raw, scan) == HarvestAll(a, raw, scan) + HarvestAll(b, raw, scan)
  {
    if b == [] {
      assert a + b == a;
    } else {
      var init, last := b[..|b| - 1], b[|b| - 1];
      assert a + b == (a + init) + [last];
      assert b == init + [last];
      calc {
        HarvestAll(a + b, raw, scan);
        HarvestAll((a + init) + [last], raw, scan);
        { HarvestAllSnoc(a + init, last, raw, scan); }
        HarvestAll(a + init, raw, scan) + TransformRecords(last, raw, scan);
        { HarvestAllAppend(a, init, raw, scan); }
        HarvestAll(a, raw, scan) + (HarvestAll(init, raw, scan) + TransformRecords(last, raw, scan));
        { HarvestAllSnoc(init, last, raw, scan); }
        HarvestAll(a, raw, scan) + HarvestAll(init + [last], raw, scan);
      }
    }
  }

  /** The loops over the patterns and their matches for one transform. */
  method ReportMatches(t: Transform, scans: seq<PatternScan>) returns (records: seq<Record>)
    ensures records == KeepScans(t, scans)
  {
    records := [];
    for s := 0 to |scans|
      invariant records == KeepScans(t, scans[..s])
    {
      var name := scans[s].name;
      var ms := scans[s].matches;
      ghost var before := records;
      for m := 0 to |ms|
        invariant records == before + KeepMatches(t, name, ms[..m])
      {
        assert ms[..m + 1][..m] == ms[..m];
        if |ms[m].text| > 3 {
          records := records + [Record(t, name, ms[m].index, ms[m].text)];
        }
      }
      assert ms[..|ms|] == ms;
      assert scans[..s + 1][..s] == scans[..s];
    }
    assert scans[..|scans|] == scans;
  }

  /** The loop over the parameters of one class. */
  method HarvestClass(raw: seq<byte>, cls: Family, scan: seq<byte> -> seq<PatternScan>)
    returns (records: seq<Record>)
    ensures records == HarvestAll(Instances(cls), raw, scan)
  {
    var ps := Params(cls);
    ghost var ts := Instances(cls);
    records := [];
    for p := 0 to |ps|
      invariant records == HarvestAll(ts[..p], raw, scan)
    {
      InstancesAt(cls, p);
      var transform := Construct(cls, ps[p]).value;
      var data := TransformMethods.TransformString(transform, raw);
      var more := ReportMatches(transform, scan(data));
      HarvestAllStep(ts, p, raw, scan);
      records := records + more;
    }
    assert ts[..|ps|] == ts;
  }

  /** `multi_trans`: the records of every parameter of every class, in
      enumeration order. */
  method MultiTrans(raw: seq<byte>, classes: seq<Family>, scan: seq<byte> -> seq<PatternScan>)
    returns (records: seq<Record>)
    ensures records == HarvestAll(Candidates(classes), raw, scan)
  {
    records := [];
    for c := 0 to |classes|
      invariant records == HarvestAll(Candidates(classes[..c]), raw, scan)
    {
      var more := HarvestClass(raw, classes[c], scan);
      CandidatesStep(classes, c);
      HarvestAllAppend(Candidates(classes[..c]), Instances(classes[c]), raw, scan);
      records := records + more;
    }
    assert classes[..|classes|] == classes;
  }
}
