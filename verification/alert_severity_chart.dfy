/**
 * The data behind the severity chart: a fixed array of four counters, one
 * per severity level, incremented in place for every alert. Severities off
 * the 1-4 scale are clamped into the first or the last slot.
 */
module AlertSeverityChart {
  import opened Seqs
  import opened Alerts

  /** The chart's labels, slot by slot. */
  const Labels: seq<string> := ["Critical", "High", "Medium", "Low"]

  /** `Math.min(Math.max(severity - 1, 0), 3)`: the slot an alert is counted in. */
  function Bucket(severity: int): (b: nat)
    ensures b < 4
    ensures severity <= 1 ==> b == 0
    ensures severity >= 4 ==> b == 3
    ensures IsKnownSeverity(severity) ==> b == severity - 1
  {
    Min(Max(severity - 1, 0), 3)
  }

  /** The number of alerts of `data` that fall in slot `b`. */
  function InBucket(data: seq<Alert>, b: nat): nat
  {
    if data == [] then 0
    else InBucket(data[..|data| - 1], b) + (if Bucket(data[|data| - 1].severity) == b then 1 else 0)
  }

  /** The number of alerts of `data` whose severity is exactly `s`. */
  function WithSeverity(data: seq<Alert>, s: int): nat
  {
    if data == [] then 0
    else WithSeverity(data[..|data| - 1], s) + (if data[|data| - 1].severity == s then 1 else 0)
  }

  /** The four counters after the loop; nothing when there is no data. */
  function SeverityCounts(data: seq<Alert>): Option<seq<nat>>
  {
    if data == [] then None else Some([InBucket(data, 0), InBucket(data, 1), InBucket(data, 2), InBucket(data, 3)])
  }

  /** The chart's effect body: return early on empty data, else fill the four counters in place. */
  method BuildSeverityCounts(data: seq<Alert>) returns (r: Option<seq<nat>>)
    ensures r == SeverityCounts(data)
  {
    if |data| == 0 {
      return None;
    }
    var counts := new nat[4](_ => 0);
    for i := 0 to |data|
      invariant forall b :: 0 <= b < 4 ==> counts[b] == InBucket(data[..i], b)
    {
      assert data[..i + 1][..i] == data[..i];
      var index := Min(Max(data[i].severity - 1, 0), 3);
      counts[index] := counts[index] + 1;
    }
    assert data[..|data|] == data;
    assert counts[..] == [counts[0], counts[1], counts[2], counts[3]];
    r := Some(counts[..]);
  }

  /** Every alert lands in exactly one slot: the four counters add up to the number of alerts. */
  lemma {:induction false} BucketsSum(data: seq<Alert>)
    ensures InBucket(data, 0) + InBucket(data, 1) + InBucket(data, 2) + InBucket(data, 3) == |data|
  {
    if data != [] {
      BucketsSum(data[..|data| - 1]);
    }
  }

  /** When every severity is on the scale, slot `s - 1` counts exactly the alerts of severity `s`. */
  lemma {:induction false} BucketCountsSeverity(data: seq<Alert>, s: int)
    requires IsKnownSeverity(s)
    requires forall i :: 0 <= i < |data| ==> IsKnownSeverity(data[i].severity)
    ensures InBucket(data, s - 1) == WithSeverity(data, s)
  {
    if data != [] {
      BucketCountsSeverity(data[..|data| - 1], s);
    }
  }

  /**
   * With data there are exactly four counters, adding up to the number of
   * alerts; with every severity on the scale, counter `s - 1` is the number
   * of alerts of severity `s`.
   */
  lemma SeverityCountsCorrect(data: seq<Alert>)
    requires data != []
    ensures SeverityCounts(data).Some? && |SeverityCounts(data).value| == 4
    ensures Sum(SeverityCounts(data).value) == |data|
    ensures (forall i :: 0 <= i < |data| ==> IsKnownSeverity(data[i].severity)) ==>
              forall s :: 1 <= s <= 4 ==> SeverityCounts(data).value[s - 1] == WithSeverity(data, s)
  {
    BucketsSum(data);
    var c := SeverityCounts(data).value;
    SumOfFour(InBucket(data, 0), InBucket(data, 1), InBucket(data, 2), InBucket(data, 3));
    if forall i :: 0 <= i < |data| ==> IsKnownSeverity(data[i].severity) {
      forall s | 1 <= s <= 4 ensures SeverityCounts(data).value[s - 1] == WithSeverity(data, s) {
        BucketCountsSeverity(data, s);
        assert c[s - 1] == InBucket(data, s - 1) by {
          if s == 1 {} else if s == 2 {} else if s == 3 {} else {}
        }
      }
    }
  }

  /** Slot `s - 1` is labelled as the table labels severity `s`. */
  lemma LabelsMatchTable(s: int)
    requires IsKnownSeverity(s)
    ensures Labels[Bucket(s)] == SeverityLabel(s)
  {
  }
}
