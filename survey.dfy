/** Answer records as the survey API returns them, and the counting
    functions that the three charts share. */
module Survey {

  /** One respondent's answer to one survey question. Records of different
      questions given by the same respondent share their `submissionId`. */
  datatype AnswerRecord = AnswerRecord(submissionId: int, answer: string)

  datatype Option<+T> = None | Some(value: T)

  /** No label occurs twice. */
  predicate Distinct(labels: seq<string>)
  {
    forall i, j :: 0 <= i < j < |labels| ==> labels[i] != labels[j]
  }

  /** The number of records whose answer is exactly `ans` (strict string
      equality: no trimming, no case folding). This is what
      `records.filter(r => r.answer === ans).length` computes. */
  function CountAnswer(recs: seq<AnswerRecord>, ans: string): (n: nat)
    ensures n <= |recs|
    ensures n == 0 <==> forall k :: 0 <= k < |recs| ==> recs[k].answer != ans
    ensures n == |recs| <==> forall k :: 0 <= k < |recs| ==> recs[k].answer == ans
  {
    if recs == [] then 0
    else
      var init := recs[..|recs| - 1];
      assert forall k :: 0 <= k < |init| ==> init[k] == recs[k];
      CountAnswer(init, ans) + (if recs[|recs| - 1].answer == ans then 1 else 0)
  }

  /** The number of records whose answer is one of `labels`. */
  function CountIn(recs: seq<AnswerRecord>, labels: seq<string>): (n: nat)
    ensures n <= |recs|
    ensures (forall k :: 0 <= k < |recs| ==> recs[k].answer in labels) ==> n == |recs|
  {
    if recs == [] then 0
    else
      var init := recs[..|recs| - 1];
      assert forall k :: 0 <= k < |init| ==> init[k] == recs[k];
      CountIn(init, labels) + (if recs[|recs| - 1].answer in labels then 1 else 0)
  }

  /** The per-label counts of `recs`, one slot per label, in label order. */
  function CountsOf(recs: seq<AnswerRecord>, labels: seq<string>): (counts: seq<nat>)
    ensures |counts| == |labels|
    ensures forall k :: 0 <= k < |labels| ==> counts[k] == CountAnswer(recs, labels[k])
  {
    if labels == [] then []
    else [CountAnswer(recs, labels[0])] + CountsOf(recs, labels[1..])
  }

  function Sum(xs: seq<int>): int
  {
    if xs == [] then 0 else xs[0] + Sum(xs[1..])
  }

  /** The prefix of a sequence up to its length is the sequence. */
  lemma WholePrefix<T>(s: seq<T>)
    ensures s[..|s|] == s
  {
  }

  /** Appending one record adds one to the count of its own answer and
      leaves every other count alone. */
  lemma CountAnswerSnoc(recs: seq<AnswerRecord>, r: AnswerRecord, ans: string)
    ensures CountAnswer(recs + [r], ans) == CountAnswer(recs, ans) + (if r.answer == ans then 1 else 0)
  {
    assert (recs + [r])[..|recs|] == recs;
  }

  /** A record whose answer is not `ans` can be removed from anywhere in the
      sequence without changing the count of `ans`. */
  lemma {:induction false} CountAnswerSkip(front: seq<AnswerRecord>, r: AnswerRecord, back: seq<AnswerRecord>, ans: string)
    requires r.answer != ans
    ensures CountAnswer(front + [r] + back, ans) == CountAnswer(front + back, ans)
  {
    if back == [] {
      assert front + [r] + back == front + [r];
      assert front + back == front;
      CountAnswerSnoc(front, r, ans);
    } else {
      var init := back[..|back| - 1];
      var last := back[|back| - 1];
      CountAnswerSkip(front, r, init, ans);
      assert front + [r] + back == (front + [r] + init) + [last];
      assert front + back == (front + init) + [last];
      CountAnswerSnoc(front + [r] + init, last, ans);
      CountAnswerSnoc(front + init, last, ans);
    }
  }

  /** When `first` is not among `rest`, counting the records that answer one
      of `[first] + rest` is counting those that answer `first` plus those
      that answer one of `rest`. */
  lemma {:induction false} CountInCons(recs: seq<AnswerRecord>, first: string, rest: seq<string>)
    requires first !in rest
    ensures CountIn(recs, [first] + rest) == CountAnswer(recs, first) + CountIn(recs, rest)
  {
    if recs != [] {
      var init := recs[..|recs| - 1];
      CountInCons(init, first, rest);
    }
  }

  /** For distinct labels, the per-label counts add up to the number of
      records whose answer is one of the labels: no record is counted
      twice. */
  lemma {:induction false} SumCountsOfDistinct(recs: seq<AnswerRecord>, labels: seq<string>)
    requires Distinct(labels)
    ensures Sum(CountsOf(recs, labels)) == CountIn(recs, labels)
  {
    if labels == [] {
      CountInEmpty(recs);
    } else {
      var rest := labels[1..];
      assert labels == [labels[0]] + rest;
      assert Distinct(rest);
      assert labels[0] !in rest by {
        forall j | 0 <= j < |rest| ensures rest[j] != labels[0] {
          assert rest[j] == labels[j + 1];
        }
      }
      SumCountsOfDistinct(recs, rest);
      CountInCons(recs, labels[0], rest);
    }
  }

  /** No record answers one of no labels. */
  lemma {:induction false} CountInEmpty(recs: seq<AnswerRecord>)
    ensures CountIn(recs, []) == 0
  {
    if recs != [] {
      CountInEmpty(recs[..|recs| - 1]);
    }
  }

  /** Every element of a sequence of naturals is at most its sum. */
  lemma {:induction false} ElementAtMostSum(xs: seq<nat>, k: int)
    requires 0 <= k < |xs|
    ensures xs[k] <= Sum(xs)
  {
    SumNonNegative(xs[1..]);
    if k > 0 {
      ElementAtMostSum(xs[1..], k - 1);
    }
  }

  lemma {:induction false} SumNonNegative(xs: seq<nat>)
    ensures Sum(xs) >= 0
  {
    if xs != [] {
      SumNonNegative(xs[1..]);
    }
  }

  /** Slot-wise `a[i] + b[i] <= c[i]` carries over to the sums. */
  lemma {:induction false} SumPointwiseAtMost(a: seq<int>, b: seq<int>, c: seq<int>)
    requires |a| == |b| == |c|
    requires forall i :: 0 <= i < |a| ==> a[i] + b[i] <= c[i]
    ensures Sum(a) + Sum(b) <= Sum(c)
  {
    if a != [] {
      SumPointwiseAtMost(a[1..], b[1..], c[1..]);
    }
  }

  /** Under slot-wise `a[i] + b[i] <= c[i]`, the sums are equal exactly when
      every slot is. */
  lemma {:induction false} SumPointwiseEqualIff(a: seq<int>, b: seq<int>, c: seq<int>)
    requires |a| == |b| == |c|
    requires forall i :: 0 <= i < |a| ==> a[i] + b[i] <= c[i]
    ensures Sum(a) + Sum(b) == Sum(c) <==> forall i :: 0 <= i < |a| ==> a[i] + b[i] == c[i]
  {
    if a != [] {
      SumPointwiseEqualIff(a[1..], b[1..], c[1..]);
      SumPointwiseAtMost(a[1..], b[1..], c[1..]);
      if forall i :: 0 <= i < |a| ==> a[i] + b[i] == c[i] {
        assert forall i :: 0 <= i < |a| - 1 ==> a[1..][i] + b[1..][i] == c[1..][i] by {
          forall i | 0 <= i < |a| - 1 ensures a[1..][i] + b[1..][i] == c[1..][i] {
            assert a[i + 1] + b[i + 1] == c[i + 1];
          }
        }
      } else {
        var j :| 0 <= j < |a| && a[j] + b[j] != c[j];
        if j > 0 {
          assert a[1..][j - 1] + b[1..][j - 1] != c[1..][j - 1];
        }
      }
    }
  }

  /** Slot-wise `a[i] + b[i] == c[i]` carries over to the sums. */
  lemma {:induction false} SumPointwiseEqual(a: seq<int>, b: seq<int>, c: seq<int>)
    requires |a| == |b| == |c|
    requires forall i :: 0 <= i < |a| ==> a[i] + b[i] == c[i]
    ensures Sum(a) + Sum(b) == Sum(c)
  {
    if a != [] {
      SumPointwiseEqual(a[1..], b[1..], c[1..]);
    }
  }
}
