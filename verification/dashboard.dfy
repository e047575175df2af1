/**
 * The four summary counters at the top of the dashboard, computed from the
 * loaded alerts (an empty list until the data has loaded), and how they
 * agree with the charts drawn from the same alerts.
 */
module Dashboard {
  import opened Seqs
  import opened Alerts
  import TopAttackersChart
  import TargetedPortsChart
  import AlertSeverityChart
  import DataUtils

  /** The dashboard's alerts before loading finishes. */
  const InitialLogData: seq<Alert> := []

  predicate IsCritical(a: Alert)
  {
    a.severity == 1
  }

  function TotalAlerts(logData: seq<Alert>): nat
  {
    |logData|
  }

  /** `logData.filter(alert => alert.severity === 1).length`. */
  function CriticalAlerts(logData: seq<Alert>): nat
  {
    |Filter(logData, IsCritical)|
  }

  /** `new Set(logData.map(alert => alert.src_ip)).size`. */
  function UniqueAttackers(logData: seq<Alert>): nat
  {
    |set ip | ip in TopAttackersChart.SourceIps(logData)|
  }

  /** `new Set(logData.map(alert => alert.dest_port)).size`. */
  function UniqueTargets(logData: seq<Alert>): nat
  {
    |set p | p in TargetedPortsChart.Ports(logData)|
  }

  /** Before the data has loaded every counter is 0. */
  lemma InitialCounters()
    ensures TotalAlerts(InitialLogData) == 0
    ensures CriticalAlerts(InitialLogData) == 0
    ensures UniqueAttackers(InitialLogData) == 0
    ensures UniqueTargets(InitialLogData) == 0
  {
    assert TopAttackersChart.SourceIps(InitialLogData) == [];
    assert TargetedPortsChart.Ports(InitialLogData) == [];
  }

  /**
   * No counter exceeds the number of alerts, and with any alert there is at
   * least one attacker and one target.
   */
  lemma CountersBounded(logData: seq<Alert>)
    ensures CriticalAlerts(logData) <= TotalAlerts(logData)
    ensures UniqueAttackers(logData) <= TotalAlerts(logData)
    ensures UniqueTargets(logData) <= TotalAlerts(logData)
    ensures logData != [] ==> UniqueAttackers(logData) >= 1 && UniqueTargets(logData) >= 1
  {
    DistinctBound(TopAttackersChart.SourceIps(logData));
    DistinctBound(TargetedPortsChart.Ports(logData));
  }

  /** The critical counter counts exactly the alerts of severity 1. */
  lemma {:induction false} CriticalIsSeverityOne(logData: seq<Alert>)
    ensures CriticalAlerts(logData) == AlertSeverityChart.WithSeverity(logData, 1)
  {
    if logData != [] {
      var prefix, last := logData[..|logData| - 1], logData[|logData| - 1];
      assert logData == prefix + [last];
      FilterSnoc(prefix, last, IsCritical);
      CriticalIsSeverityOne(prefix);
    }
  }

  /**
   * When every severity is on the scale, the critical counter equals the
   * severity chart's "Critical" slot.
   */
  lemma CriticalMatchesSeverityChart(logData: seq<Alert>)
    requires logData != []
    requires forall i :: 0 <= i < |logData| ==> IsKnownSeverity(logData[i].severity)
    ensures AlertSeverityChart.SeverityCounts(logData).Some?
    ensures CriticalAlerts(logData) == AlertSeverityChart.SeverityCounts(logData).value[0]
  {
    CriticalIsSeverityOne(logData);
    AlertSeverityChart.SeverityCountsCorrect(logData);
  }

  /** The top-attackers chart has one bar per attacker, up to ten. */
  lemma AttackersMatchChart(logData: seq<Alert>)
    requires logData != []
    ensures TopAttackersChart.TopAttackers(logData).Some?
    ensures |TopAttackersChart.TopAttackers(logData).value.labels| == Min(TopAttackersChart.TopN, UniqueAttackers(logData))
  {
    TopAttackersChart.TopAttackersCorrect(logData);
  }

  /** The targeted-ports chart has one bar per target port, up to ten. */
  lemma TargetsMatchChart(logData: seq<Alert>)
    requires logData != []
    ensures TargetedPortsChart.TargetedPorts(logData).Some?
    ensures |TargetedPortsChart.TargetedPorts(logData).value.labels| == Min(TargetedPortsChart.TopN, UniqueTargets(logData))
  {
    TargetedPortsChart.TargetedPortsCorrect(logData);
  }
  /**
   * On the generated sample the counters read 200 alerts, at most 11
   * attackers (the source-IP list) and at most 20 targets (the port list).
   */
  lemma SampleCounters(draws: seq<DataUtils.Draw>)
    requires |draws| == DataUtils.SampleSize
    requires forall i :: 0 <= i < |draws| ==> DataUtils.ValidDraw(draws[i])
    ensures TotalAlerts(DataUtils.SampleData(draws)) == DataUtils.SampleSize
    ensures UniqueAttackers(DataUtils.SampleData(draws)) <= |DataUtils.SourceIps|
    ensures UniqueTargets(DataUtils.SampleData(draws)) <= |DataUtils.DestPorts|
  {
    var data := DataUtils.SampleData(draws);
    DataUtils.SampleDataCorrect(draws);
    var ips, ports := TopAttackersChart.SourceIps(data), TargetedPortsChart.Ports(data);
    forall i | 0 <= i < |data| ensures ips[i] in DataUtils.SourceIps && ports[i] in DataUtils.DestPorts {
      assert DataUtils.InDomain(data[i]);
    }
    DrawnFrom(ips, DataUtils.SourceIps);
    DrawnFrom(ports, DataUtils.DestPorts);
  }
}
