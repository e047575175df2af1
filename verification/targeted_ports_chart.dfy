/**
 * The data behind the targeted-ports bar chart: alerts are counted per
 * destination port, sorted by count, largest first, the first ten are
 * kept, and each port is labelled with its well-known service name.
 *
 * The counting object is indexed by the port number, so its keys are the
 * ports' decimal strings; `Object.entries` lists those that are array
 * indices (every port in [0, 2^32 - 2]) in ascending numeric order.
 */
module TargetedPortsChart {
  import opened Seqs
  import opened Text
  import opened Counting
  import opened Alerts

  /** How many bars the chart keeps. */
  const TopN: nat := 10

  /** The destination port of every alert, in data order. */
  function Ports(data: seq<Alert>): (r: seq<int>)
    ensures |r| == |data|
    ensures forall i :: 0 <= i < |data| ==> r[i] == data[i].destPort
  {
    seq(|data|, i requires 0 <= i < |data| => data[i].destPort)
  }

  /** The object keys the counting loop uses: each port as a decimal string. */
  function DecimalKeys(ports: seq<int>): (r: seq<string>)
    ensures |r| == |ports|
    ensures forall i :: 0 <= i < |ports| ==> r[i] == IntToString(ports[i])
  {
    seq(|ports|, i requires 0 <= i < |ports| => IntToString(ports[i]))
  }

  /** The label lookup: the well-known services; any other port falls back to `Port N`. */
  const ServiceNames: map<int, string> := map[
    22 := "SSH (22)",
    80 := "HTTP (80)",
    443 := "HTTPS (443)",
    3306 := "MySQL (3306)",
    1433 := "MSSQL (1433)",
    5432 := "PostgreSQL (5432)",
    5060 := "SIP (5060)",
    21 := "FTP (21)",
    23 := "Telnet (23)",
    25 := "SMTP (25)",
    53 := "DNS (53)",
    8080 := "HTTP Alt (8080)",
    8443 := "HTTPS Alt (8443)",
    3389 := "RDP (3389)",
    5900 := "VNC (5900)",
    5901 := "VNC (5901)",
    5902 := "VNC (5902)",
    5903 := "VNC (5903)"]

  /** `serviceNames[port] || "Port " + port`: defined for every port. */
  function PortLabel(port: int): (r: string)
    ensures port in ServiceNames ==> r == ServiceNames[port]
    ensures port !in ServiceNames ==> r == "Port " + IntToString(port)
  {
    if port in ServiceNames then ServiceNames[port] else "Port " + IntToString(port)
  }

  /** The port numbers the chart shows, `Number(key)` of each kept entry. */
  function ShownPorts(data: seq<Alert>): (r: seq<int>)
    ensures |r| == |TopCounts(DecimalKeys(Ports(data)), TopN)|
  {
    var top := TopCounts(DecimalKeys(Ports(data)), TopN);
    seq(|top|, i requires 0 <= i < |top| => StringToNumber(top[i].key))
  }

  /** What the chart is drawn from; nothing when there is no data. */
  function TargetedPorts(data: seq<Alert>): Option<Series>
  {
    if data == [] then None
    else
      var top := TopCounts(DecimalKeys(Ports(data)), TopN);
      Some(Series(seq(|top|, i requires 0 <= i < |top| => PortLabel(StringToNumber(top[i].key))), CountsOf(top)))
  }

  /** The chart's effect body: return early on empty data, else count, sort, keep ten, label and project. */
  method BuildTargetedPorts(data: seq<Alert>) returns (r: Option<Series>)
    ensures r == TargetedPorts(data)
  {
    if |data| == 0 {
      return None;
    }
    var sorted := CountAndSort(DecimalKeys(Ports(data)));
    var top := Take(sorted, TopN);
    var labels := seq(|top|, i requires 0 <= i < |top| => PortLabel(StringToNumber(top[i].key)));
    r := Some(Series(labels, CountsOf(top)));
  }

  /** `s` begins with the text of the fallback label, `Port `. */
  predicate StartsWithPortPrefix(s: string)
  {
    |s| >= 5 && s[0] == 'P' && s[1] == 'o' && s[2] == 'r' && s[3] == 't' && s[4] == ' '
  }

  /** No service name looks like a fallback label. */
  lemma ServiceNameIsNotFallback(p: int)
    requires p in ServiceNames
    ensures !StartsWithPortPrefix(ServiceNames[p])
  {
  }

  /** The fallback label of a port reads back as that port. */
  lemma FallbackReadsBack(p: int)
    requires p !in ServiceNames
    ensures StartsWithPortPrefix(PortLabel(p))
    ensures StringToNumber(PortLabel(p)[5..]) == p
  {
    assert PortLabel(p)[5..] == IntToString(p);
    NumberRoundTrip(p);
  }

  /** Distinct ports get distinct labels, so no two bars of the chart share a label. */
  lemma PortLabelInjective(p: int, q: int)
    requires PortLabel(p) == PortLabel(q)
    ensures p == q
  {
    if p in ServiceNames && q in ServiceNames {
    } else if p !in ServiceNames && q !in ServiceNames {
      FallbackReadsBack(p);
      FallbackReadsBack(q);
    } else if p in ServiceNames {
      ServiceNameIsNotFallback(p);
      FallbackReadsBack(q);
    } else {
      ServiceNameIsNotFallback(q);
      FallbackReadsBack(p);
    }
  }

  /** A port's key occurs as often among the keys as the port among the ports. */
  lemma {:induction false} KeyCount(ports: seq<int>, p: int)
    ensures multiset(DecimalKeys(ports))[IntToString(p)] == multiset(ports)[p]
  {
    if ports != [] {
      var prefix, last := ports[..|ports| - 1], ports[|ports| - 1];
      assert ports == prefix + [last];
      assert DecimalKeys(ports) == DecimalKeys(prefix) + [IntToString(last)];
      KeyCount(prefix, p);
      IntToStringInjective(last, p);
    }
  }

  /** A port's key is among the keys exactly when the port is among the ports. */
  lemma KeyIn(ports: seq<int>, p: int)
    ensures IntToString(p) in DecimalKeys(ports) <==> p in ports
  {
    if IntToString(p) in DecimalKeys(ports) {
      var m :| 0 <= m < |ports| && DecimalKeys(ports)[m] == IntToString(p);
      IntToStringInjective(ports[m], p);
    }
  }

  /** There are as many distinct keys as distinct ports. */
  lemma {:induction false} DistinctKeyCount(ports: seq<int>)
    ensures |set k | k in DecimalKeys(ports)| == |set p | p in ports|
  {
    if ports != [] {
      var prefix, last := ports[..|ports| - 1], ports[|ports| - 1];
      var keys, prefixKeys := DecimalKeys(ports), DecimalKeys(prefix);
      assert ports == prefix + [last];
      assert keys == prefixKeys + [IntToString(last)];
      DistinctKeyCount(prefix);
      SetOfSnoc(prefixKeys, IntToString(last));
      SetOfSnoc(prefix, last);
      KeyIn(prefix, last);
      var keySet, portSet := set k | k in prefixKeys, set p | p in prefix;
      assert IntToString(last) in keySet <==> last in portSet;
    }
  }

  /** Every key comes from a port of the data and reads back as that port. */
  lemma KeyReadsBack(ports: seq<int>, k: string)
    requires k in DecimalKeys(ports)
    ensures StringToNumber(k) in ports && IntToString(StringToNumber(k)) == k
  {
    var m :| 0 <= m < |ports| && DecimalKeys(ports)[m] == k;
    NumberRoundTrip(ports[m]);
  }

  /**
   * With data, the chart shows `min(10, distinct ports)` bars; labels and
   * counts are aligned; each bar is a port of the data, labelled by
   * `PortLabel`, with its number of alerts; no port twice; and the counts
   * never increase.
   */
  lemma TargetedPortsCorrect(data: seq<Alert>)
    requires data != []
    ensures TargetedPorts(data).Some?
    ensures var s := TargetedPorts(data).value; var shown := ShownPorts(data); var ports := Ports(data);
      && |s.labels| == |s.counts| == |shown| == Min(TopN, |set p | p in ports|)
      && (forall i :: 0 <= i < |shown| ==>
            shown[i] in ports && s.labels[i] == PortLabel(shown[i]) && s.counts[i] == multiset(ports)[shown[i]])
      && (forall i, j :: 0 <= i < j < |shown| ==> shown[i] != shown[j] && s.counts[i] >= s.counts[j])
  {
    var ports := Ports(data);
    var keys := DecimalKeys(ports);
    var top := TopCounts(keys, TopN);
    var shown := ShownPorts(data);
    TopCountsCorrect(keys, TopN);
    FirstSeenSize(keys);
    DistinctKeyCount(ports);
    forall i | 0 <= i < |shown| ensures shown[i] in ports && IntToString(shown[i]) == top[i].key
      && top[i].count == multiset(ports)[shown[i]]
    {
      KeyReadsBack(ports, top[i].key);
      KeyCount(ports, shown[i]);
    }
  }

  /** The counts shown add up to at most the number of alerts, and to all of them when at most ten ports occur. */
  lemma TargetedPortsSum(data: seq<Alert>)
    requires data != []
    ensures TargetedPorts(data).Some?
    ensures Sum(TargetedPorts(data).value.counts) <= |data|
    ensures |set p | p in Ports(data)| <= TopN ==> Sum(TargetedPorts(data).value.counts) == |data|
  {
    var keys := DecimalKeys(Ports(data));
    SumOfCountsOf(TopCounts(keys, TopN));
    TopCountsCorrect(keys, TopN);
    FirstSeenSize(keys);
    DistinctKeyCount(Ports(data));
  }

  /** A port that is not shown has no more alerts than the last port shown. */
  lemma TargetedPortsLeftOut(data: seq<Alert>, p: int)
    requires p in Ports(data) && p !in ShownPorts(data)
    ensures |TargetedPorts(data).value.counts| == TopN
    ensures multiset(Ports(data))[p] <= TargetedPorts(data).value.counts[TopN - 1]
  {
    var ports := Ports(data);
    var keys := DecimalKeys(ports);
    var top := TopCounts(keys, TopN);
    NumberRoundTrip(p);
    forall i | 0 <= i < |top| ensures KeysOf(top)[i] != IntToString(p) {
      assert ShownPorts(data)[i] == StringToNumber(top[i].key);
    }
    TopCountsLeftOut(keys, TopN, IntToString(p));
    KeyCount(ports, p);
  }

  /** For ports that are not negative, the `i`-th key shown is the decimal form of the `i`-th port shown. */
  lemma ShownPortKey(data: seq<Alert>, i: nat)
    requires forall j :: 0 <= j < |data| ==> 0 <= data[j].destPort
    requires i < |ShownPorts(data)|
    ensures var top := TopCounts(DecimalKeys(Ports(data)), TopN);
      DigitsValue(top[i].key) == ShownPorts(data)[i]
  {
    var ports := Ports(data);
    var keys := DecimalKeys(ports);
    var top := TopCounts(keys, TopN);
    TopKeysOccur(keys, TopN, i);
    var m :| 0 <= m < |ports| && keys[m] == top[i].key;
    DigitsRoundTrip(ports[m]);
  }

  /** Keys of ports in [0, 2^32 - 2] are array indices. */
  lemma KeysAreIndices(ports: seq<int>)
    requires forall k :: 0 <= k < |ports| ==> 0 <= ports[k] <= MaxArrayIndex
    ensures forall key :: key in DecimalKeys(ports) ==> IsArrayIndex(key)
  {
    forall key | key in DecimalKeys(ports) ensures IsArrayIndex(key) {
      var m :| 0 <= m < |ports| && DecimalKeys(ports)[m] == key;
      IntToStringIsIndex(ports[m]);
    }
  }

  /** Two shown ports with the same count are in ascending order. */
  lemma ShownTieOrder(data: seq<Alert>, i: nat, j: nat)
    requires forall k :: 0 <= k < |data| ==> 0 <= data[k].destPort <= MaxArrayIndex
    requires i < j < |ShownPorts(data)|
    requires TopCounts(DecimalKeys(Ports(data)), TopN)[i].count == TopCounts(DecimalKeys(Ports(data)), TopN)[j].count
    ensures ShownPorts(data)[i] < ShownPorts(data)[j]
  {
    var ports := Ports(data);
    var keys := DecimalKeys(ports);
    var top := TopCounts(keys, TopN);
    var shown := ShownPorts(data);
    var ki, kj := top[i].key, top[j].key;
    KeysAreIndices(ports);
    TopTiesInAscendingOrder(keys, TopN);
    assert ki != kj && DigitsValue(ki) <= DigitsValue(kj);
    ShownPortKey(data, i);
    ShownPortKey(data, j);
    assert DigitsValue(ki) == shown[i] && DigitsValue(kj) == shown[j];
    TopKeysOccur(keys, TopN, i);
    TopKeysOccur(keys, TopN, j);
    KeyReadsBack(ports, ki);
    KeyReadsBack(ports, kj);
    assert shown[i] == StringToNumber(ki) && shown[j] == StringToNumber(kj);
    assert IntToString(shown[i]) == ki && IntToString(shown[j]) == kj;
    assert shown[i] != shown[j];
  }

  /**
   * Ports in [0, 2^32 - 2] are array-index keys, which `Object.entries`
   * lists in ascending order; the stable sort keeps that order among equal
   * counts, so ports shown with the same count are in ascending order.
   */
  lemma TargetedPortsTieOrder(data: seq<Alert>)
    requires data != []
    requires forall i :: 0 <= i < |data| ==> 0 <= data[i].destPort <= MaxArrayIndex
    ensures var s := TargetedPorts(data).value; var shown := ShownPorts(data);
      forall i, j :: 0 <= i < j < |shown| && s.counts[i] == s.counts[j] ==> shown[i] < shown[j]
  {
    var shown := ShownPorts(data);
    var top := TopCounts(DecimalKeys(Ports(data)), TopN);
    var counts := TargetedPorts(data).value.counts;
    assert counts == CountsOf(top);
    forall i, j | 0 <= i < j < |shown| && counts[i] == counts[j] ensures shown[i] < shown[j] {
      ShownTieOrder(data, i, j);
    }
  }
}
