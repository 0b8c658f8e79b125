/**
 * The ONOS services the engine calls, reduced to what it asks of them: the intent service
 * (submit and withdraw) and the host service's IP monitoring. Each records the calls it
 * receives in a ghost log, which the rest of the model states its effects against.
 */
module Services {
  import opened Net
  import opened Intents

  class IntentService {
    ghost var log: seq<IntentEvent>

    constructor()
      ensures log == []
    {
      log := [];
    }

    method Submit(intent: Intent)
      modifies this
      ensures log == old(log) + [IntentEvent.Submit(intent)]
    {
      log := log + [IntentEvent.Submit(intent)];
    }

    method Withdraw(intent: Intent)
      modifies this
      ensures log == old(log) + [IntentEvent.Withdraw(intent)]
    {
      log := log + [IntentEvent.Withdraw(intent)];
    }
  }

  datatype MonitorEvent = StartMonitoringIp(ip: IpAddress) | StopMonitoringIp(ip: IpAddress)

  class HostMonitor {
    ghost var log: seq<MonitorEvent>

    constructor()
      ensures log == []
    {
      log := [];
    }

    method StartMonitoringIp(ip: IpAddress)
      modifies this
      ensures log == old(log) + [MonitorEvent.StartMonitoringIp(ip)]
    {
      log := log + [MonitorEvent.StartMonitoringIp(ip)];
    }

    method StopMonitoringIp(ip: IpAddress)
      modifies this
      ensures log == old(log) + [MonitorEvent.StopMonitoringIp(ip)]
    {
      log := log + [MonitorEvent.StopMonitoringIp(ip)];
    }
  }
}
