/**
 * The data behind the alert-category chart: alerts are counted per
 * category and sorted by count, largest first; every category is shown.
 */
module AlertCategoryChart {
  import opened Seqs
  import opened Text
  import opened Counting
  import opened Alerts

  /** The category of every alert, in data order. */
  function Categories(data: seq<Alert>): (r: seq<string>)
    ensures |r| == |data|
    ensures forall i :: 0 <= i < |data| ==> r[i] == data[i].category
  {
    seq(|data|, i requires 0 <= i < |data| => data[i].category)
  }

  /** What the chart is drawn from; nothing when there is no data. */
  function CategoryCounts(data: seq<Alert>): Option<Series>
  {
    if data == [] then None
    else
      var sorted := SortedCounts(Categories(data));
      Some(Series(KeysOf(sorted), CountsOf(sorted)))
  }

  /** The chart's effect body: return early on empty data, else count, sort and project. */
  method BuildCategoryCounts(data: seq<Alert>) returns (r: Option<Series>)
    ensures r == CategoryCounts(data)
  {
    if |data| == 0 {
      return None;
    }
    var sorted := CountAndSort(Categories(data));
    r := Some(Series(KeysOf(sorted), CountsOf(sorted)));
  }

  /**
   * With data there is one bar per distinct category, no category twice and
   * none missing; labels and counts are aligned; each count is the number
   * of alerts in that category; the counts never increase; and they add up
   * to the number of alerts.
   */
  lemma CategoryCountsCorrect(data: seq<Alert>)
    requires data != []
    ensures CategoryCounts(data).Some?
    ensures var s := CategoryCounts(data).value; var cs := Categories(data);
      && |s.labels| == |s.counts| == |set c | c in cs|
      && (forall c :: c in cs <==> c in s.labels)
      && (forall i :: 0 <= i < |s.labels| ==> s.counts[i] == multiset(cs)[s.labels[i]])
      && (forall i, j :: 0 <= i < j < |s.labels| ==> s.labels[i] != s.labels[j] && s.counts[i] >= s.counts[j])
      && Sum(s.counts) == |data|
  {
    var cs := Categories(data);
    var sorted := SortedCounts(cs);
    assert CategoryCounts(data).value == Series(KeysOf(sorted), CountsOf(sorted));
    SortedCountsCorrect(cs);
    FirstSeenSize(cs);
    SeriesOfCounts(sorted, cs);
    SumOfCountsOf(sorted);
  }

  /**
   * Categories that are not array-index strings (any category with a letter
   * or a space) keep first-seen order among equal counts.
   */
  lemma CategoryTieOrder(data: seq<Alert>)
    requires data != []
    requires forall i :: 0 <= i < |data| ==> !IsArrayIndex(data[i].category)
    ensures var s := CategoryCounts(data).value;
      forall i, j :: 0 <= i < j < |s.labels| && s.counts[i] == s.counts[j] ==>
        FirstIndex(Categories(data), s.labels[i]) < FirstIndex(Categories(data), s.labels[j])
  {
    TiesInFirstSeenOrder(Categories(data));
  }
}
