/** Ranking of the aggregated rows by abuse confidence score, highest first,
    with the program's in-place exchange sort. The sort is not stable: rows
    with equal scores may end up in any relative order. */
module Ranking {
  import opened Reports

  /** Scores never increase along `rows`. */
  predicate NonIncreasing(rows: seq<ReportRow>)
  {
    forall a, b :: 0 <= a < b < |rows| ==> rows[a].abuseConfidenceScore >= rows[b].abuseConfidenceScore
  }

  /** Positions before `i` hold the highest scores in order: each is at least
      every score after it. */
  predicate SettledBefore(rows: seq<ReportRow>, i: int)
  {
    forall a, b :: 0 <= a < i && a < b < |rows| ==> rows[a].abuseConfidenceScore >= rows[b].abuseConfidenceScore
  }

  /** `rows` with positions `i` and `j` exchanged. */
  function Swap(rows: seq<ReportRow>, i: nat, j: nat): (swapped: seq<ReportRow>)
    requires i < |rows| && j < |rows|
    ensures |swapped| == |rows|
    ensures multiset(swapped) == multiset(rows)
    ensures swapped[i] == rows[j] && swapped[j] == rows[i]
    ensures forall k :: 0 <= k < |rows| && k != i && k != j ==> swapped[k] == rows[k]
  {
    rows[i := rows[j]][j := rows[i]]
  }

  /** Exchanging two positions at or after `i` leaves the settled prefix settled. */
  lemma SwapKeepsSettled(rows: seq<ReportRow>, i: nat, j: nat)
    requires i < j < |rows| && SettledBefore(rows, i)
    ensures SettledBefore(Swap(rows, i, j), i)
  {
    var s := Swap(rows, i, j);
    forall a, b | 0 <= a < i && a < b < |s|
      ensures s[a].abuseConfidenceScore >= s[b].abuseConfidenceScore
    {
      assert s[a] == rows[a];
      if b == i {
        assert s[b] == rows[j];
      } else if b == j {
        assert s[b] == rows[i];
      } else {
        assert s[b] == rows[b];
      }
    }
  }

  /** One pass of the inner loop: compares position `i` with every later
      position, swapping whenever the later row scores higher, so that
      position `i` ends up with the highest score from `i` on. */
  method RaiseHighest(rows: seq<ReportRow>, i: nat) returns (raised: seq<ReportRow>)
    requires i < |rows| && SettledBefore(rows, i)
    ensures |raised| == |rows|
    ensures multiset(raised) == multiset(rows)
    ensures forall k :: i < k < |raised| ==> raised[i].abuseConfidenceScore >= raised[k].abuseConfidenceScore
    ensures SettledBefore(raised, i + 1)
  {
    raised := rows;
    var j := i + 1;
    while j < |raised|
      invariant i + 1 <= j <= |raised| == |rows|
      invariant multiset(raised) == multiset(rows)
      invariant SettledBefore(raised, i)
      invariant forall k :: i < k < j ==> raised[i].abuseConfidenceScore >= raised[k].abuseConfidenceScore
    {
      if raised[i].abuseConfidenceScore < raised[j].abuseConfidenceScore {
        SwapKeepsSettled(raised, i, j);
        raised := Swap(raised, i, j);
      }
      j := j + 1;
    }
  }

  /** For each position `i` but the last, runs the inner pass from `i`. */
  method RankByScore(rows: seq<ReportRow>) returns (ranked: seq<ReportRow>)
    ensures |ranked| == |rows|
    ensures multiset(ranked) == multiset(rows)
    ensures NonIncreasing(ranked)
  {
    ranked := rows;
    var i := 0;
    while i < |ranked| - 1
      invariant 0 <= i && (i <= |ranked| - 1 || |ranked| == 0)
      invariant |ranked| == |rows|
      invariant multiset(ranked) == multiset(rows)
      invariant SettledBefore(ranked, i)
    {
      ranked := RaiseHighest(ranked, i);
      i := i + 1;
    }
  }
}
