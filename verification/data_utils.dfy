/**
 * The sample-data generator: two hundred alerts drawn from fixed lists of
 * source IPs, ports, protocols and categories, with instants spread over a
 * three-hour window, returned newest first.
 *
 * The random numbers are not part of the model: each iteration's draws are
 * given as a `Draw`, already scaled to a list index, a severity step or a
 * millisecond offset into the window.
 */
module DataUtils {
  import opened Sorting
  import opened Alerts

  /** How many alerts the generator produces. */
  const SampleSize: nat := 200

  const SourceIps: seq<string> := [
    "8.42.77.171",
    "92.63.194.33",
    "185.176.27.6",
    "176.119.4.12",
    "61.176.222.167",
    "80.211.246.121",
    "37.49.231.178",
    "185.53.91.29",
    "92.63.194.38",
    "185.244.25.145",
    "5.188.206.22"]

  const DestPorts: seq<int> := [
    22, 80, 443, 1433, 3306, 5432, 5060, 5900, 5901, 5902, 5903, 5800, 5801, 5802, 1521, 8080, 8443, 3389, 23, 21]

  const Protocols: seq<string> := ["TCP", "UDP"]

  const Categories: seq<string> := [
    "Potentially Bad Traffic",
    "Attempted Information Leak",
    "Misc Attack",
    "Not Suspicious Traffic",
    "ET SCAN Potential SSH Scan",
    "ET SCAN Suspicious inbound to MSSQL port 1433",
    "ET SCAN Suspicious inbound to mySQL port 3306",
    "ET SCAN Potential VNC Scan 5900-5920"]

  /** The one destination every generated alert has. */
  const DestIp: string := "138.68.3.71"

  /** 2019-01-02T03:50:00Z and 2019-01-02T06:50:00Z, in milliseconds since the epoch. */
  const StartTime: int := 1546401000000
  const EndTime: int := 1546411800000

  /**
   * One iteration's random draws, scaled: the offset of the instant from
   * the start of the window, an index into each list, and the severity
   * step `Math.floor(Math.random() * 4)`.
   */
  datatype Draw = Draw(offset: int, srcIndex: int, portIndex: int, protoIndex: int, categoryIndex: int, severityStep: int)

  /**
   * The values the scaled draws can take. The offset may reach the full
   * window: the product `Math.random() * window` stays below it, but adding
   * it to the start instant (doubles near 1.5e12 are 2^-12 apart) can round
   * the sum up to the end instant itself.
   */
  predicate ValidDraw(d: Draw)
  {
    && 0 <= d.offset <= EndTime - StartTime
    && 0 <= d.srcIndex < |SourceIps|
    && 0 <= d.portIndex < |DestPorts|
    && 0 <= d.protoIndex < |Protocols|
    && 0 <= d.categoryIndex < |Categories|
    && 0 <= d.severityStep < 4
  }

  /** The record one iteration pushes. */
  function MakeAlert(d: Draw): Alert
    requires ValidDraw(d)
  {
    Alert(
      StartTime + d.offset,
      SourceIps[d.srcIndex],
      DestIp,
      DestPorts[d.portIndex],
      Protocols[d.protoIndex],
      Categories[d.categoryIndex],
      d.severityStep + 1)
  }

  /** The records the generator can produce: every field from its list, severity 1-4, the instant in the window. */
  predicate InDomain(a: Alert)
  {
    && a.srcIp in SourceIps
    && a.destIp == DestIp
    && a.destPort in DestPorts
    && a.proto in Protocols
    && a.category in Categories
    && IsKnownSeverity(a.severity)
    && StartTime <= a.timestamp <= EndTime
  }

  /** Every record a valid draw produces is in the domain. */
  lemma MakeAlertInDomain(d: Draw)
    requires ValidDraw(d)
    ensures InDomain(MakeAlert(d))
  {
  }

  /** Every record of the domain is produced by some valid draw `d`. */
  lemma DrawFor(a: Alert) returns (d: Draw)
    requires InDomain(a)
    ensures ValidDraw(d) && MakeAlert(d) == a
  {
    var s :| 0 <= s < |SourceIps| && SourceIps[s] == a.srcIp;
    var p :| 0 <= p < |DestPorts| && DestPorts[p] == a.destPort;
    var t :| 0 <= t < |Protocols| && Protocols[t] == a.proto;
    var c :| 0 <= c < |Categories| && Categories[c] == a.category;
    d := Draw(a.timestamp - StartTime, s, p, t, c, a.severity - 1);
  }

  /** An alert is in the domain exactly when some valid draw produces it. */
  lemma DomainIsReachable(a: Alert)
    ensures InDomain(a) <==> exists d :: ValidDraw(d) && MakeAlert(d) == a
  {
    if InDomain(a) {
      var d := DrawFor(a);
    } else {
      forall d | ValidDraw(d) ensures MakeAlert(d) != a {
        MakeAlertInDomain(d);
      }
    }
  }

  /** The records of the loop, in the order they are pushed. */
  function Generated(draws: seq<Draw>): (r: seq<Alert>)
    requires forall i :: 0 <= i < |draws| ==> ValidDraw(draws[i])
    ensures |r| == |draws|
    ensures forall i :: 0 <= i < |draws| ==> r[i] == MakeAlert(draws[i])
  {
    seq(|draws|, i requires 0 <= i < |draws| => MakeAlert(draws[i]))
  }

  /** The final comparator, newest first: `a` may precede `b` when `b.timestamp - a.timestamp <= 0`. */
  predicate NewestFirst(a: Alert, b: Alert)
  {
    b.timestamp - a.timestamp <= 0
  }

  /** What the generator returns for the given draws. */
  function SampleData(draws: seq<Draw>): seq<Alert>
    requires forall i :: 0 <= i < |draws| ==> ValidDraw(draws[i])
  {
    StableSort(Generated(draws), NewestFirst)
  }

  /** `parseLogData`: push one record per iteration, then sort the array by time, newest first. */
  method ParseLogData(draws: seq<Draw>) returns (sampleData: seq<Alert>)
    requires |draws| == SampleSize
    requires forall i :: 0 <= i < |draws| ==> ValidDraw(draws[i])
    ensures sampleData == SampleData(draws)
  {
    sampleData := [];
    for i := 0 to SampleSize
      invariant |sampleData| == i
      invariant forall k :: 0 <= k < i ==> sampleData[k] == MakeAlert(draws[k])
    {
      var d := draws[i];
      sampleData := sampleData + [Alert(
        StartTime + d.offset,
        SourceIps[d.srcIndex],
        DestIp,
        DestPorts[d.portIndex],
        Protocols[d.protoIndex],
        Categories[d.categoryIndex],
        d.severityStep + 1)];
    }
    assert sampleData == Generated(draws);
    sampleData := StableSort(sampleData, NewestFirst);
  }

  lemma NewestFirstIsPreorder()
    ensures TotalPreorder(NewestFirst)
  {
  }

  /**
   * The generator returns exactly 200 records, a permutation of the records
   * it generated, every one in the domain, ordered by instant from the
   * newest to the oldest, and records with the same instant in the order
   * they were generated.
   */
  lemma SampleDataCorrect(draws: seq<Draw>)
    requires |draws| == SampleSize
    requires forall i :: 0 <= i < |draws| ==> ValidDraw(draws[i])
    ensures |SampleData(draws)| == SampleSize
    ensures multiset(SampleData(draws)) == multiset(Generated(draws))
    ensures forall i :: 0 <= i < |SampleData(draws)| ==> InDomain(SampleData(draws)[i])
    ensures forall i, j :: 0 <= i < j < |SampleData(draws)| ==> SampleData(draws)[i].timestamp >= SampleData(draws)[j].timestamp
    ensures SameTies(SampleData(draws), Generated(draws), NewestFirst)
  {
    var generated := Generated(draws);
    var r := SampleData(draws);
    NewestFirstIsPreorder();
    StableSortCorrect(generated, NewestFirst);
    forall i | 0 <= i < |r| ensures InDomain(r[i]) {
      assert r[i] in multiset(generated);
      var k :| 0 <= k < |generated| && generated[k] == r[i];
    }
    forall i, j | 0 <= i < j < |r| ensures r[i].timestamp >= r[j].timestamp {
      assert NewestFirst(r[i], r[j]);
    }
  }
}
