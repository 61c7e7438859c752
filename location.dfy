/** The location bar chart: a one-pass tally of the location answers into a
    dictionary keyed by the raw answer, projected into parallel label and
    count series. */
module Location {
  import opened Survey

  /** A plain JavaScript object used as a dictionary from strings to counts:
      its entries, and its keys in insertion order, which is the order
      `Object.keys` and `Object.values` report them in. */
  datatype StringDict = StringDict(order: seq<string>, entries: map<string, nat>)

  /** Each key is listed once, and the listed keys are the entries' keys. */
  ghost predicate Valid(d: StringDict)
  {
    Distinct(d.order) && forall key :: key in d.entries <==> key in d.order
  }

  /** Reading `d[key]`: `None` stands for `undefined`. */
  function Get(d: StringDict, key: string): (r: Option<nat>)
    ensures r.Some? <==> key in d.entries
    ensures r.Some? ==> r.value == d.entries[key]
  {
    if key in d.entries then Some(d.entries[key]) else None
  }

  /** Assigning `d[key] = v`: a new key goes to the end of the key order, an
      existing key keeps its place. */
  function Put(d: StringDict, key: string, v: nat): (r: StringDict)
    requires Valid(d)
    ensures Valid(r)
    ensures r.entries == d.entries[key := v]
    ensures key in d.entries ==> r.order == d.order
    ensures key !in d.entries ==> r.order == d.order + [key]
  {
    if key in d.entries then StringDict(d.order, d.entries[key := v])
    else StringDict(d.order + [key], d.entries[key := v])
  }

  /** `Object.values`: the values, aligned with the key order. */
  function Values(d: StringDict): (vs: seq<nat>)
    requires Valid(d)
    ensures |vs| == |d.order|
    ensures forall k :: 0 <= k < |vs| ==> vs[k] == d.entries[d.order[k]]
  {
    seq(|d.order|, k requires 0 <= k < |d.order| => d.entries[d.order[k]])
  }

  /** The distinct answers of `recs`, each once, in the order in which they
      first occur. */
  function FirstSeen(recs: seq<AnswerRecord>): (labels: seq<string>)
    ensures Distinct(labels)
    ensures forall l :: l in labels <==> CountAnswer(recs, l) >= 1
  {
    if recs == [] then []
    else
      var init := recs[..|recs| - 1];
      var last := recs[|recs| - 1];
      var prev := FirstSeen(init);
      assert recs == init + [last];
      assert forall l :: CountAnswer(recs, l) == CountAnswer(init, l) + (if last.answer == l then 1 else 0) by {
        forall l { CountAnswerSnoc(init, last, l); }
      }
      if last.answer in prev then prev else prev + [last.answer]
  }

  lemma FirstSeenSnoc(recs: seq<AnswerRecord>, r: AnswerRecord)
    ensures FirstSeen(recs + [r])
            == if r.answer in FirstSeen(recs) then FirstSeen(recs) else FirstSeen(recs) + [r.answer]
  {
    assert (recs + [r])[..|recs|] == recs;
  }

  /** Later records never reorder the labels already seen: they can only
      append new ones. */
  lemma {:induction false} FirstSeenExtends(recs: seq<AnswerRecord>, later: seq<AnswerRecord>)
    ensures FirstSeen(recs) <= FirstSeen(recs + later)
  {
    if later == [] {
      assert recs + later == recs;
    } else {
      var init := later[..|later| - 1];
      var last := later[|later| - 1];
      FirstSeenExtends(recs, init);
      assert recs + later == (recs + init) + [last];
      FirstSeenSnoc(recs + init, last);
    }
  }

  /** The counts of the distinct answers add up to the number of records:
      every record is counted under exactly one label. */
  lemma {:induction false} TallyCoversAll(recs: seq<AnswerRecord>)
    ensures Sum(CountsOf(recs, FirstSeen(recs))) == |recs|
  {
    var labels := FirstSeen(recs);
    forall k | 0 <= k < |recs| ensures recs[k].answer in labels {
      assert CountAnswer(recs, recs[k].answer) != 0;
    }
    SumCountsOfDistinct(recs, labels);
  }

  /** `d` is the dictionary the counting loop has built after `recs`: its
      keys are the distinct answers in first-seen order, each mapped to its
      number of occurrences. */
  ghost predicate Tallies(d: StringDict, recs: seq<AnswerRecord>)
  {
    && Valid(d)
    && d.order == FirstSeen(recs)
    && forall l :: l in d.entries ==> d.entries[l] == CountAnswer(recs, l)
  }

  /** The loop body, `d[key] = (d[key] || 0) + 1`: the key's count goes up by
      one (from nothing to one for a new key), a new key goes to the end of
      the key order, and every other entry stays as it was. */
  function Increment(d: StringDict, key: string): (r: StringDict)
    requires Valid(d)
    ensures Valid(r)
    ensures r.entries == d.entries[key := (if key in d.entries then d.entries[key] else 0) + 1]
    ensures key in d.entries ==> r.order == d.order
    ensures key !in d.entries ==> r.order == d.order + [key]
  {
    var current := match Get(d, key) case Some(c) => c case None => 0;
    Put(d, key, current + 1)
  }

  /** One step of the counting loop keeps the dictionary a tally of the
      records seen so far. */
  lemma IncrementTallies(d: StringDict, recs: seq<AnswerRecord>, r: AnswerRecord)
    requires Tallies(d, recs)
    ensures Tallies(Increment(d, r.answer), recs + [r])
  {
    FirstSeenSnoc(recs, r);
    var d' := Increment(d, r.answer);
    forall l | l in d'.entries ensures d'.entries[l] == CountAnswer(recs + [r], l) {
      CountAnswerSnoc(recs, r, l);
      if l != r.answer {
        assert l in d.entries;
      } else if l !in d.entries {
        assert l !in FirstSeen(recs);
      }
    }
  }

  /** `IncrementTallies` for the loop over `recs`, at step `i`. */
  lemma TallyStep(d: StringDict, recs: seq<AnswerRecord>, i: nat)
    requires i < |recs|
    requires Tallies(d, recs[..i])
    ensures Tallies(Increment(d, recs[i].answer), recs[..i + 1])
  {
    var seen, r := recs[..i], recs[i];
    assert recs[..i + 1] == seen + [r];
    IncrementTallies(d, seen, r);
  }

  /** Projecting a finished tally: `Object.keys` gives the distinct answers,
      and `Object.values` gives, index-aligned with them, each one's number
      of occurrences (at least one), adding up to the number of records. */
  lemma {:induction false} TallyProjection(d: StringDict, recs: seq<AnswerRecord>)
    requires Tallies(d, recs)
    ensures |Values(d)| == |d.order|
    ensures forall k :: 0 <= k < |d.order| ==> Values(d)[k] == CountAnswer(recs, d.order[k]) && Values(d)[k] >= 1
    ensures Sum(Values(d)) == |recs|
  {
    var vs := Values(d);
    var counts := CountsOf(recs, d.order);
    forall k | 0 <= k < |d.order| ensures vs[k] == counts[k] && vs[k] >= 1 {
      var key := d.order[k];
      assert key in d.entries;
      assert key in FirstSeen(recs);
    }
    assert vs == counts;
    TallyCoversAll(recs);
  }

  /** The counting loop and the projection that follows it: `labels` are the
      dictionary's keys, `counts` its values, `totalCount` the number of
      location records. */
  method TallyLocations(locationData: seq<AnswerRecord>) returns (labels: seq<string>, counts: seq<nat>, totalCount: nat)
    ensures totalCount == |locationData|
    ensures labels == FirstSeen(locationData)
    ensures |counts| == |labels|
    ensures forall k :: 0 <= k < |labels| ==> counts[k] == CountAnswer(locationData, labels[k]) && counts[k] >= 1
    ensures Sum(counts) == totalCount
  {
    var locations := StringDict([], map[]);
    totalCount := |locationData|;
    for i := 0 to |locationData|
      invariant Tallies(locations, locationData[..i])
    {
      TallyStep(locations, locationData, i);
      locations := Increment(locations, locationData[i].answer);
    }
    WholePrefix(locationData);
    TallyProjection(locations, locationData);
    labels := locations.order;
    counts := Values(locations);
  }

  /** One percentage of the chart, as the integer numerator and denominator
      of `count / totalCount * 100`. */
  datatype Share = Share(count: nat, total: nat)

  /** The percentages series: one share per count, all over the same total. */
  function Percentages(counts: seq<nat>, totalCount: nat): (shares: seq<Share>)
    ensures |shares| == |counts|
    ensures forall k :: 0 <= k < |counts| ==> shares[k].count == counts[k] && shares[k].total == totalCount
  {
    seq(|counts|, k requires 0 <= k < |counts| => Share(counts[k], totalCount))
  }

  /** For a tally's counts, no share divides by zero and every share lies in
      (0, 100] percent: an empty tally has no shares at all. */
  lemma SharesWithinWhole(counts: seq<nat>, totalCount: nat)
    requires forall k :: 0 <= k < |counts| ==> counts[k] >= 1
    requires Sum(counts) == totalCount
    ensures totalCount == 0 <==> counts == []
    ensures forall k :: 0 <= k < |counts| ==>
      1 <= Percentages(counts, totalCount)[k].count <= Percentages(counts, totalCount)[k].total
  {
    if counts != [] {
      ElementAtMostSum(counts, 0);
    }
    forall k | 0 <= k < |counts| ensures counts[k] <= totalCount {
      ElementAtMostSum(counts, k);
    }
  }

  /** "NY", "NY", "LA" tally to labels ["NY", "LA"] with counts [2, 1] out
      of 3. */
  lemma NewYorkLosAngelesExample()
    ensures var recs := [AnswerRecord(1, "NY"), AnswerRecord(2, "NY"), AnswerRecord(3, "LA")];
            FirstSeen(recs) == ["NY", "LA"]
            && CountAnswer(recs, "NY") == 2 && CountAnswer(recs, "LA") == 1
  {
    var recs := [AnswerRecord(1, "NY"), AnswerRecord(2, "NY"), AnswerRecord(3, "LA")];
    assert recs[..2][..1] == [recs[0]];
    assert recs[..2] == [recs[0], recs[1]];
    assert FirstSeen(recs[..1]) == ["NY"];
    assert FirstSeen(recs[..2]) == ["NY"];
  }

  /** The answer is the key as it stands: "NY" and "ny" are two labels. */
  lemma NoCaseFolding()
    ensures FirstSeen([AnswerRecord(1, "NY"), AnswerRecord(2, "ny")]) == ["NY", "ny"]
  {
    var recs := [AnswerRecord(1, "NY"), AnswerRecord(2, "ny")];
    assert recs[..1] == [recs[0]];
    assert "NY" != "ny" by { assert "NY"[1] != "ny"[1]; }
  }
}
