/**
 * The data behind the top-attackers bar chart: alerts are counted per
 * source IP, sorted by count, largest first, and the first ten are shown.
 */
module TopAttackersChart {
  import opened Seqs
  import opened Text
  import opened Counting
  import opened Alerts

  /** How many bars the chart keeps. */
  const TopN: nat := 10

  /** The source IP of every alert, in data order: the keys the counting loop visits. */
  function SourceIps(data: seq<Alert>): (r: seq<string>)
    ensures |r| == |data|
    ensures forall i :: 0 <= i < |data| ==> r[i] == data[i].srcIp
  {
    seq(|data|, i requires 0 <= i < |data| => data[i].srcIp)
  }

  /** What the chart is drawn from; nothing when there is no data. */
  function TopAttackers(data: seq<Alert>): Option<Series>
  {
    if data == [] then None
    else
      var top := TopCounts(SourceIps(data), TopN);
      Some(Series(KeysOf(top), CountsOf(top)))
  }

  /** The chart's effect body: return early on empty data, else count, sort, keep ten and project. */
  method BuildTopAttackers(data: seq<Alert>) returns (r: Option<Series>)
    ensures r == TopAttackers(data)
  {
    if |data| == 0 {
      return None;
    }
    var sorted := CountAndSort(SourceIps(data));
    var top := Take(sorted, TopN);
    var labels := KeysOf(top);
    var counts := CountsOf(top);
    r := Some(Series(labels, counts));
  }

  /**
   * With data, the chart shows `min(10, distinct source IPs)` bars; labels
   * and counts are aligned; each label is a source IP that occurs, with its
   * number of alerts; no IP twice; the counts never increase; and their sum
   * is at most the number of alerts, and equal to it when at most ten
   * distinct IPs occur.
   */
  lemma TopAttackersCorrect(data: seq<Alert>)
    requires data != []
    ensures TopAttackers(data).Some?
    ensures var s := TopAttackers(data).value; var ips := SourceIps(data);
      && |s.labels| == |s.counts| == Min(TopN, |set ip | ip in ips|)
      && (forall i :: 0 <= i < |s.labels| ==> s.labels[i] in ips && s.counts[i] == multiset(ips)[s.labels[i]])
      && (forall i, j :: 0 <= i < j < |s.labels| ==> s.labels[i] != s.labels[j] && s.counts[i] >= s.counts[j])
  {
    var ips := SourceIps(data);
    var top := TopCounts(ips, TopN);
    assert TopAttackers(data).value == Series(KeysOf(top), CountsOf(top));
    TopCountsCorrect(ips, TopN);
    FirstSeenSize(ips);
    SeriesOfCounts(top, ips);
  }

  /** The counts shown add up to at most the number of alerts, and to all of them when at most ten IPs occur. */
  lemma TopAttackersSum(data: seq<Alert>)
    requires data != []
    ensures TopAttackers(data).Some?
    ensures Sum(TopAttackers(data).value.counts) <= |data|
    ensures |set ip | ip in SourceIps(data)| <= TopN ==> Sum(TopAttackers(data).value.counts) == |data|
  {
    SumOfCountsOf(TopCounts(SourceIps(data), TopN));
    TopCountsCorrect(SourceIps(data), TopN);
    FirstSeenSize(SourceIps(data));
  }

  /** A source IP that is not shown has no more alerts than the last IP shown. */
  lemma TopAttackersLeftOut(data: seq<Alert>, ip: string)
    requires ip in SourceIps(data) && ip !in TopAttackers(data).value.labels
    ensures |TopAttackers(data).value.labels| == TopN
    ensures multiset(SourceIps(data))[ip] <= TopAttackers(data).value.counts[TopN - 1]
  {
    TopCountsLeftOut(SourceIps(data), TopN, ip);
  }

  /**
   * IP keys (they contain dots) are not array indices, so `Object.entries`
   * keeps first-seen order and the stable sort keeps it among equal counts:
   * of two IPs shown with the same count, the one that appears first in the
   * data comes first.
   */
  lemma TopAttackersTieOrder(data: seq<Alert>)
    requires data != []
    requires forall i :: 0 <= i < |data| ==> '.' in data[i].srcIp
    ensures var s := TopAttackers(data).value;
      forall i, j :: 0 <= i < j < |s.labels| && s.counts[i] == s.counts[j] ==>
        FirstIndex(SourceIps(data), s.labels[i]) < FirstIndex(SourceIps(data), s.labels[j])
  {
    var ips := SourceIps(data);
    forall k | k in ips ensures !IsArrayIndex(k) {
      var m :| 0 <= m < |ips| && ips[m] == k;
      var d :| 0 <= d < |k| && k[d] == '.';
      NonDigitIsNotIndex(k, d);
    }
    TiesInFirstSeenOrder(ips);
    TopCountsCorrect(ips, TopN);
  }
}
