/** The age × gender cross-tabulation of the stacked bar chart: every age
    answer is counted in its age band, and split by the gender its
    respondent gave, the two record sets being joined on `submissionId`. */
module AgeAndGender {
  import opened Survey

  /** The eight age bands, in chart order. */
  const AgeRanges: seq<string> :=
    ["21-25", "26-30", "31-35", "36-40", "41-45", "46-50", "51-55", "56-60"]

  const Male: string := "Male"
  const Female: string := "Female"

  /** The three per-band series, each one slot per entry of `AgeRanges`. */
  datatype CrossTab = CrossTab(totalPeople: seq<int>, maleCounts: seq<int>, femaleCounts: seq<int>)

  /** No age band is listed twice, so `indexOf` finds every band at its own
      slot. */
  lemma AgeRangesDistinct()
    ensures Distinct(AgeRanges)
  {
  }

  /** `Array.prototype.indexOf` with strict equality: the first index holding
      `x`, or -1 when there is none. */
  function IndexOf(xs: seq<string>, x: string): (r: int)
    ensures -1 <= r < |xs|
    ensures r == -1 <==> x !in xs
    ensures r >= 0 ==> xs[r] == x && forall j :: 0 <= j < r ==> xs[j] != x
  {
    if xs == [] then -1
    else if xs[0] == x then 0
    else
      var r := IndexOf(xs[1..], x);
      if r == -1 then -1 else r + 1
  }

  /** The band index of an age answer is `i` exactly when the answer is the
      `i`-th label; an answer outside the eight labels has no band. */
  lemma BandIndex(answer: string, i: int)
    requires 0 <= i < |AgeRanges|
    ensures IndexOf(AgeRanges, answer) == i <==> answer == AgeRanges[i]
  {
    AgeRangesDistinct();
    if answer == AgeRanges[i] {
      var r := IndexOf(AgeRanges, answer);
      assert r >= 0 && AgeRanges[r] == AgeRanges[i];
    }
  }

  /** `Array.prototype.find` on the gender records: the first record, in
      sequence order, whose `submissionId` equals `id`, given by its
      position. */
  function Find(genders: seq<AnswerRecord>, id: int): (r: Option<nat>)
    ensures r.None? <==> forall k :: 0 <= k < |genders| ==> genders[k].submissionId != id
    ensures r.Some? ==> r.value < |genders| && genders[r.value].submissionId == id
    ensures r.Some? ==> forall j :: 0 <= j < r.value ==> genders[j].submissionId != id
  {
    if genders == [] then None
    else if genders[0].submissionId == id then Some(0)
    else
      var r := Find(genders[1..], id);
      if r.None? then None else Some(r.value + 1)
  }

  /** The respondent `id` is joined to a gender record whose answer is
      exactly `gender`. */
  predicate HasGender(genders: seq<AnswerRecord>, id: int, gender: string)
  {
    var m := Find(genders, id);
    m.Some? && genders[m.value].answer == gender
  }

  /** The number of age records answering exactly `band` whose respondent is
      joined to the gender `gender`. */
  function GenderCount(ages: seq<AnswerRecord>, genders: seq<AnswerRecord>, band: string, gender: string): (n: nat)
    ensures n <= CountAnswer(ages, band)
  {
    if ages == [] then 0
    else
      var init := ages[..|ages| - 1];
      var last := ages[|ages| - 1];
      assert ages == init + [last];
      CountAnswerSnoc(init, last, band);
      GenderCount(init, genders, band, gender)
        + (if last.answer == band && HasGender(genders, last.submissionId, gender) then 1 else 0)
  }

  /** Appending one age record adds one to the gender count of its own band
      when it is joined to that gender, and nothing otherwise. */
  lemma GenderCountSnoc(ages: seq<AnswerRecord>, r: AnswerRecord, genders: seq<AnswerRecord>, band: string, gender: string)
    ensures GenderCount(ages + [r], genders, band, gender)
            == GenderCount(ages, genders, band, gender)
               + (if r.answer == band && HasGender(genders, r.submissionId, gender) then 1 else 0)
  {
    assert (ages + [r])[..|ages|] == ages;
  }

  /** The forEach callback of the first pass: the age record's own band
      total goes up by one, and nothing else changes; an answer outside the
      eight bands changes nothing. */
  method CountAge(item: AnswerRecord, totalPeople: array<int>)
    requires totalPeople.Length == |AgeRanges|
    modifies totalPeople
    ensures forall i :: 0 <= i < |AgeRanges| ==>
      totalPeople[i] == old(totalPeople[i]) + (if item.answer == AgeRanges[i] then 1 else 0)
  {
    var index := IndexOf(AgeRanges, item.answer);
    if index != -1 {
      totalPeople[index] := totalPeople[index] + 1;
    }
    forall i | 0 <= i < |AgeRanges| ensures (IndexOf(AgeRanges, item.answer) == i <==> item.answer == AgeRanges[i]) {
      BandIndex(item.answer, i);
    }
  }

  /** The forEach callback of the second pass: the age record is joined to
      the first gender record of its respondent, and the male or the female
      counter of its own band goes up by one when that gender is exactly
      "Male" or "Female". At most one slot of the two series changes. */
  method CountGender(item: AnswerRecord, genderData: seq<AnswerRecord>, maleCounts: array<int>, femaleCounts: array<int>)
    requires maleCounts.Length == femaleCounts.Length == |AgeRanges|
    requires maleCounts != femaleCounts
    modifies maleCounts, femaleCounts
    ensures forall i :: 0 <= i < |AgeRanges| ==>
      maleCounts[i] == old(maleCounts[i])
        + (if item.answer == AgeRanges[i] && HasGender(genderData, item.submissionId, Male) then 1 else 0)
    ensures forall i :: 0 <= i < |AgeRanges| ==>
      femaleCounts[i] == old(femaleCounts[i])
        + (if item.answer == AgeRanges[i] && HasGender(genderData, item.submissionId, Female) then 1 else 0)
    ensures forall i :: 0 <= i < |AgeRanges| ==>
      (maleCounts[i] - old(maleCounts[i])) + (femaleCounts[i] - old(femaleCounts[i]))
        <= (if item.answer == AgeRanges[i] then 1 else 0)
  {
    forall i | 0 <= i < |AgeRanges| ensures (IndexOf(AgeRanges, item.answer) == i <==> item.answer == AgeRanges[i]) {
      BandIndex(item.answer, i);
    }
    var genderMatch := Find(genderData, item.submissionId);
    if genderMatch.Some? {
      var gender := genderData[genderMatch.value].answer;
      var index := IndexOf(AgeRanges, item.answer);
      if index != -1 {
        if gender == Male {
          maleCounts[index] := maleCounts[index] + 1;
        } else if gender == Female {
          femaleCounts[index] := femaleCounts[index] + 1;
        }
      }
    }
  }

  /** `totals` holds, per age band, the number of age records answering
      exactly that band's label. */
  ghost predicate IsBandTotals(totals: seq<int>, ages: seq<AnswerRecord>)
  {
    |totals| == |AgeRanges|
    && forall i :: 0 <= i < |AgeRanges| ==> totals[i] == CountAnswer(ages, AgeRanges[i])
  }

  /** `counts` holds, per age band, the number of age records of that band
      joined to a gender record answering exactly `gender`. */
  ghost predicate IsGenderCounts(counts: seq<int>, ages: seq<AnswerRecord>, genders: seq<AnswerRecord>, gender: string)
  {
    |counts| == |AgeRanges|
    && forall i :: 0 <= i < |AgeRanges| ==> counts[i] == GenderCount(ages, genders, AgeRanges[i], gender)
  }

  /** One age record counted into the band totals of the records before it
      gives the band totals of the longer sequence. */
  lemma AgeStep(before: seq<int>, after: seq<int>, ages: seq<AnswerRecord>, r: AnswerRecord)
    requires IsBandTotals(before, ages)
    requires |after| == |AgeRanges|
    requires forall i :: 0 <= i < |AgeRanges| ==> after[i] == before[i] + (if r.answer == AgeRanges[i] then 1 else 0)
    ensures IsBandTotals(after, ages + [r])
  {
    forall i | 0 <= i < |AgeRanges| ensures after[i] == CountAnswer(ages + [r], AgeRanges[i]) {
      CountAnswerSnoc(ages, r, AgeRanges[i]);
    }
  }

  /** The same for one gender series. */
  lemma GenderStep(before: seq<int>, after: seq<int>, ages: seq<AnswerRecord>, r: AnswerRecord,
                   genders: seq<AnswerRecord>, gender: string)
    requires IsGenderCounts(before, ages, genders, gender)
    requires |after| == |AgeRanges|
    requires forall i :: 0 <= i < |AgeRanges| ==>
      after[i] == before[i] + (if r.answer == AgeRanges[i] && HasGender(genders, r.submissionId, gender) then 1 else 0)
    ensures IsGenderCounts(after, ages + [r], genders, gender)
  {
    forall i | 0 <= i < |AgeRanges| ensures after[i] == GenderCount(ages + [r], genders, AgeRanges[i], gender) {
      GenderCountSnoc(ages, r, genders, AgeRanges[i], gender);
    }
  }

  /** The first pass: `totalPeople` starts as eight zeros and every age
      record is counted into its band. */
  method CountBandTotals(ageData: seq<AnswerRecord>) returns (totals: seq<int>)
    ensures IsBandTotals(totals, ageData)
  {
    var totalPeople := new int[|AgeRanges|](_ => 0);
    for k := 0 to |ageData|
      invariant IsBandTotals(totalPeople[..], ageData[..k])
    {
      ghost var before := totalPeople[..];
      CountAge(ageData[k], totalPeople);
      AgeStep(before, totalPeople[..], ageData[..k], ageData[k]);
      assert ageData[..k + 1] == ageData[..k] + [ageData[k]];
    }
    WholePrefix(ageData);
    totals := totalPeople[..];
  }

  /** The second pass: `maleCounts` and `femaleCounts` start as eight zeros
      and every age record is counted under the gender it is joined to. */
  method CountBandGenders(ageData: seq<AnswerRecord>, genderData: seq<AnswerRecord>)
    returns (males: seq<int>, females: seq<int>)
    ensures IsGenderCounts(males, ageData, genderData, Male)
    ensures IsGenderCounts(females, ageData, genderData, Female)
  {
    var maleCounts := new int[|AgeRanges|](_ => 0);
    var femaleCounts := new int[|AgeRanges|](_ => 0);
    for k := 0 to |ageData|
      invariant IsGenderCounts(maleCounts[..], ageData[..k], genderData, Male)
      invariant IsGenderCounts(femaleCounts[..], ageData[..k], genderData, Female)
    {
      ghost var maleBefore, femaleBefore := maleCounts[..], femaleCounts[..];
      CountGender(ageData[k], genderData, maleCounts, femaleCounts);
      GenderStep(maleBefore, maleCounts[..], ageData[..k], ageData[k], genderData, Male);
      GenderStep(femaleBefore, femaleCounts[..], ageData[..k], ageData[k], genderData, Female);
      assert ageData[..k + 1] == ageData[..k] + [ageData[k]];
    }
    WholePrefix(ageData);
    males, females := maleCounts[..], femaleCounts[..];
  }

  /** The cross-tabulation: per band, the number of age answers, and the
      number of them whose respondent is joined to "Male" and to "Female". */
  method CrossTabulate(ageData: seq<AnswerRecord>, genderData: seq<AnswerRecord>) returns (tab: CrossTab)
    ensures IsBandTotals(tab.totalPeople, ageData)
    ensures IsGenderCounts(tab.maleCounts, ageData, genderData, Male)
    ensures IsGenderCounts(tab.femaleCounts, ageData, genderData, Female)
  {
    var totalPeople := CountBandTotals(ageData);
    var maleCounts, femaleCounts := CountBandGenders(ageData, genderData);
    tab := CrossTab(totalPeople, maleCounts, femaleCounts);
  }

  /** In every band, the male and the female counts together are at most the
      band total: a respondent is one gender or the other, or neither. */
  lemma {:induction false} GenderCountsWithinBand(ages: seq<AnswerRecord>, genders: seq<AnswerRecord>, band: string)
    ensures GenderCount(ages, genders, band, Male) + GenderCount(ages, genders, band, Female)
            <= CountAnswer(ages, band)
  {
    if ages != [] {
      var init := ages[..|ages| - 1];
      var last := ages[|ages| - 1];
      assert ages == init + [last];
      GenderCountsWithinBand(init, genders, band);
      CountAnswerSnoc(init, last, band);
      GenderCountSnoc(init, last, genders, band, Male);
      GenderCountSnoc(init, last, genders, band, Female);
    }
  }

  /** The male and the female counts of a band add up to its total exactly
      when every age record of that band is joined to a gender record whose
      answer is exactly "Male" or "Female". */
  lemma {:induction false} GenderCountsFillBand(ages: seq<AnswerRecord>, genders: seq<AnswerRecord>, band: string)
    ensures GenderCount(ages, genders, band, Male) + GenderCount(ages, genders, band, Female)
              == CountAnswer(ages, band)
            <==> forall k :: 0 <= k < |ages| && ages[k].answer == band ==>
                   HasGender(genders, ages[k].submissionId, Male) || HasGender(genders, ages[k].submissionId, Female)
  {
    if ages != [] {
      var init := ages[..|ages| - 1];
      var last := ages[|ages| - 1];
      assert ages == init + [last];
      GenderCountsFillBand(init, genders, band);
      GenderCountsWithinBand(init, genders, band);
      CountAnswerSnoc(init, last, band);
      GenderCountSnoc(init, last, genders, band, Male);
      GenderCountSnoc(init, last, genders, band, Female);
      assert forall k :: 0 <= k < |init| ==> init[k] == ages[k];
    }
  }

  /** Summed over all bands: the male plus the female counts are at most the
      sum of the band totals, which is at most the number of age records. */
  lemma CrossTabSums(ages: seq<AnswerRecord>, genders: seq<AnswerRecord>, tab: CrossTab)
    requires IsBandTotals(tab.totalPeople, ages)
    requires IsGenderCounts(tab.maleCounts, ages, genders, Male)
    requires IsGenderCounts(tab.femaleCounts, ages, genders, Female)
    ensures Sum(tab.maleCounts) + Sum(tab.femaleCounts) <= Sum(tab.totalPeople) <= |ages|
  {
    forall i | 0 <= i < |AgeRanges|
      ensures tab.maleCounts[i] + tab.femaleCounts[i] <= tab.totalPeople[i]
    {
      GenderCountsWithinBand(ages, genders, AgeRanges[i]);
    }
    SumPointwiseAtMost(tab.maleCounts, tab.femaleCounts, tab.totalPeople);
    AgeRangesDistinct();
    SumCountsOfDistinct(ages, AgeRanges);
    assert tab.totalPeople == CountsOf(ages, AgeRanges);
  }

  /** Summed over all bands: the male plus the female counts equal the sum
      of the band totals exactly when every age record of a known band is
      joined to a gender record answering exactly "Male" or "Female". */
  lemma CrossTabFilled(ages: seq<AnswerRecord>, genders: seq<AnswerRecord>, tab: CrossTab)
    requires IsBandTotals(tab.totalPeople, ages)
    requires IsGenderCounts(tab.maleCounts, ages, genders, Male)
    requires IsGenderCounts(tab.femaleCounts, ages, genders, Female)
    ensures Sum(tab.maleCounts) + Sum(tab.femaleCounts) == Sum(tab.totalPeople)
            <==> forall k :: 0 <= k < |ages| && ages[k].answer in AgeRanges ==>
                   HasGender(genders, ages[k].submissionId, Male) || HasGender(genders, ages[k].submissionId, Female)
  {
    forall i | 0 <= i < |AgeRanges|
      ensures tab.maleCounts[i] + tab.femaleCounts[i] <= tab.totalPeople[i]
      ensures tab.maleCounts[i] + tab.femaleCounts[i] == tab.totalPeople[i]
              <==> forall k :: 0 <= k < |ages| && ages[k].answer == AgeRanges[i] ==>
                     HasGender(genders, ages[k].submissionId, Male) || HasGender(genders, ages[k].submissionId, Female)
    {
      GenderCountsWithinBand(ages, genders, AgeRanges[i]);
      GenderCountsFillBand(ages, genders, AgeRanges[i]);
    }
    SumPointwiseEqualIff(tab.maleCounts, tab.femaleCounts, tab.totalPeople);
    if forall i :: 0 <= i < |AgeRanges| ==> tab.maleCounts[i] + tab.femaleCounts[i] == tab.totalPeople[i] {
      forall k | 0 <= k < |ages| && ages[k].answer in AgeRanges
        ensures HasGender(genders, ages[k].submissionId, Male) || HasGender(genders, ages[k].submissionId, Female)
      {
        var i := IndexOf(AgeRanges, ages[k].answer);
        assert ages[k].answer == AgeRanges[i];
      }
    }
  }

  /** An age record that does not answer `band` can be removed from
      anywhere without changing that band's gender count. */
  lemma {:induction false} GenderCountSkip(front: seq<AnswerRecord>, r: AnswerRecord, back: seq<AnswerRecord>,
                                           genders: seq<AnswerRecord>, band: string, gender: string)
    requires r.answer != band
    ensures GenderCount(front + [r] + back, genders, band, gender) == GenderCount(front + back, genders, band, gender)
  {
    if back == [] {
      assert front + [r] + back == front + [r];
      assert front + back == front;
      GenderCountSnoc(front, r, genders, band, gender);
    } else {
      var init := back[..|back| - 1];
      var last := back[|back| - 1];
      var step := if last.answer == band && HasGender(genders, last.submissionId, gender) then 1 else 0;
      calc {
        GenderCount(front + [r] + back, genders, band, gender);
        { assert front + [r] + back == (front + [r] + init) + [last]; }
        GenderCount((front + [r] + init) + [last], genders, band, gender);
        { GenderCountSnoc(front + [r] + init, last, genders, band, gender); }
        GenderCount(front + [r] + init, genders, band, gender) + step;
        { GenderCountSkip(front, r, init, genders, band, gender); }
        GenderCount(front + init, genders, band, gender) + step;
        { GenderCountSnoc(front + init, last, genders, band, gender); }
        GenderCount((front + init) + [last], genders, band, gender);
        { assert front + back == (front + init) + [last]; }
        GenderCount(front + back, genders, band, gender);
      }
    }
  }

  /** An age record whose answer is not one of the eight bands (say
      "61-65") contributes to no series: removing it changes no slot. */
  lemma UnknownBandDropped(front: seq<AnswerRecord>, r: AnswerRecord, back: seq<AnswerRecord>,
                           genders: seq<AnswerRecord>, i: int, gender: string)
    requires r.answer !in AgeRanges
    requires 0 <= i < |AgeRanges|
    ensures CountAnswer(front + [r] + back, AgeRanges[i]) == CountAnswer(front + back, AgeRanges[i])
    ensures GenderCount(front + [r] + back, genders, AgeRanges[i], gender)
            == GenderCount(front + back, genders, AgeRanges[i], gender)
  {
    CountAnswerSkip(front, r, back, AgeRanges[i]);
    GenderCountSkip(front, r, back, genders, AgeRanges[i], gender);
  }

  /** Only the first gender record of a respondent is used: gender records
      appended after a match change nobody's joined gender record. */
  lemma {:induction false} FindIgnoresLaterRecords(genders: seq<AnswerRecord>, later: seq<AnswerRecord>, id: int)
    requires Find(genders, id).Some?
    ensures Find(genders + later, id) == Find(genders, id)
  {
    if genders[0].submissionId != id {
      assert (genders + later)[1..] == genders[1..] + later;
      FindIgnoresLaterRecords(genders[1..], later, id);
    }
  }

  /** `totalMale` and `totalFemale`, the two filters over the gender records,
      together count at most every gender record once. */
  lemma {:induction false} GenderTotalsWithinRecords(gData: seq<AnswerRecord>)
    ensures CountAnswer(gData, Male) + CountAnswer(gData, Female) <= |gData|
  {
    if gData != [] {
      var init := gData[..|gData| - 1];
      var last := gData[|gData| - 1];
      assert gData == init + [last];
      GenderTotalsWithinRecords(init);
      CountAnswerSnoc(init, last, Male);
      CountAnswerSnoc(init, last, Female);
    }
  }

  /** Two respondents in band "21-25", one "Male" and one "Female". */
  lemma TwoRespondentsExample()
    ensures var ages := [AnswerRecord(1, "21-25"), AnswerRecord(2, "21-25")];
            var genders := [AnswerRecord(1, "Male"), AnswerRecord(2, "Female")];
            CountAnswer(ages, AgeRanges[0]) == 2
            && GenderCount(ages, genders, AgeRanges[0], Male) == 1
            && GenderCount(ages, genders, AgeRanges[0], Female) == 1
  {
    var ages := [AnswerRecord(1, "21-25"), AnswerRecord(2, "21-25")];
    var genders := [AnswerRecord(1, "Male"), AnswerRecord(2, "Female")];
    assert ages[..1] == [ages[0]];
    assert Find(genders, 1) == Some(0);
    assert Find(genders, 2) == Some(1);
  }
}
