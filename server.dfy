/** The coordinator's request handler and its quiescence and exit policy
    (busypyserver.py). The module-level state of the source (the global
    `BusyPySettings["update"]` flag, `run_server` and the `clients`
    registry) and the handler's `_start` clock live together in one
    `GRPCServer` object; the command-line configuration is fixed at
    construction. */
module Server {

  import opened Wrappers
  import opened Protocol
  import opened Registry
  import opened Clients

  /** Seconds without a new registrant after which the registry counts as
      stable. */
  const CLIENT_POLLING_TIME: real := 5.0

  /** The coordinator's start-up configuration: the settings it hands out
      and its exit policy (`wait_for_num_clients`, `target_client_ip`,
      `monitor_only`). */
  datatype Config = Config(cpu: int, mem: int, clientExit: bool,
                           waitForNumClients: int, targetClientIp: Option<string>, monitorOnly: bool)

  class GRPCServer {
    const config: Config
    /** The registry of workers seen and acknowledged. */
    const clients: ClientIPs
    /** Time of the last new registrant (`_start`), in seconds. */
    var start: real
    /** The `update` flag of the settings answered (`BusyPySettings["update"]`). */
    var update: bool
    /** Whether the serve loop goes on (`run_server`). */
    var runServer: bool

    /** Besides the registry's own invariant: a pair is acknowledged only
        if it has been seen. */
    ghost predicate Valid()
      reads this, clients
    {
      clients.Valid() && AckedWithinSeen(clients.clients, clients.clientsUpdated)
    }

    /** Start-up (busypyserver.py:15-26, 108, 115-116). */
    constructor (config: Config, now: real)
      ensures Valid() && this.config == config && fresh(clients)
      ensures clients.clients == map[] && clients.clientsUpdated == map[]
      ensures start == now && update && runServer
    {
      this.config := config;
      clients := new ClientIPs();
      start := now;
      update := true;
      runServer := true;
    }

    /** `set_run_server` (busypyserver.py:29-31). */
    method SetRunServer(enable: bool)
      modifies this`runServer
      ensures runServer == enable
    {
      runServer := enable;
    }

    /** What happens in the stable window (busypyserver.py:175-189), for a
        caller already registered: the quorum rule, then the acknowledgement
        of a caller at the target address. */
    method StableWindow(ip: string, pid: string)
      requires Valid() && Registered(clients.clients, ip, pid)
      modifies this`update, this`runServer, clients`clientsUpdated
      ensures Valid()
      ensures var targeted := config.targetClientIp == Some(ip);
              var acked := targeted && !Registered(old(clients.clientsUpdated), ip, pid);
              && clients.clientsUpdated == (if targeted then Add(old(clients.clientsUpdated), ip, pid).1
                                            else old(clients.clientsUpdated))
              && update == (acked || old(update))
              && runServer == (old(runServer)
                               && !(config.waitForNumClients != 0 && config.waitForNumClients == clients.Total())
                               && !(acked && clients.IsTargetedUpdated(ip)))
    {
      if config.waitForNumClients != 0 && config.waitForNumClients == clients.Total() {
        SetRunServer(false);
      }
      if config.targetClientIp.Some? && ip == config.targetClientIp.value {
        var first := clients.TargetedClient(ip, pid);
        if first {
          update := true;
          if clients.IsTargetedUpdated(ip) {
            SetRunServer(false);
          }
        }
      }
    }

    /** `GetSettings` (busypyserver.py:131-194): a worker `pid` at address
        `ip` reports in at time `now`.
        - The caller is registered; a new registrant restarts the clock, and
          so does every call in monitor mode.
        - The stable window is entered only by an already known caller more
          than `CLIENT_POLLING_TIME` seconds after the last new registrant,
          never in monitor mode. There the quorum rule may stop the server,
          and a caller at the target address is acknowledged; the first
          acknowledgement of a pid sends it an update and stops the server
          once every pid seen at the target address is acknowledged.
        - With a target address or in monitor mode only that first
          acknowledgement ever carries `update`; otherwise the flag stays as
          it was.
        - The answer always carries the configured cpu, mem and exit. */
    method GetSettings(ip: string, pid: string, now: real) returns (response: Settings)
      requires Valid()
      modifies this`start, this`update, this`runServer, clients
      ensures Valid()
      ensures clients.clients == Add(old(clients.clients), ip, pid).1
      ensures var known := Registered(old(clients.clients), ip, pid);
              start == (if !known || config.monitorOnly then now else old(start))
      ensures var stable := Registered(old(clients.clients), ip, pid) && !config.monitorOnly
                            && now - old(start) > CLIENT_POLLING_TIME;
              var targeted := stable && config.targetClientIp == Some(ip);
              var acked := targeted && !Registered(old(clients.clientsUpdated), ip, pid);
              && clients.clientsUpdated == (if targeted then Add(old(clients.clientsUpdated), ip, pid).1
                                            else old(clients.clientsUpdated))
              && update == (if config.targetClientIp.Some? || config.monitorOnly then acked else old(update))
              && runServer == (old(runServer)
                               && !(stable && config.waitForNumClients != 0
                                    && config.waitForNumClients == clients.Total())
                               && !(acked && clients.IsTargetedUpdated(ip)))
      ensures response == Settings(config.cpu, config.mem, config.clientExit, update)
      ensures !old(runServer) ==> !runServer
      ensures config.monitorOnly ==> !response.update && runServer == old(runServer)
      ensures config.targetClientIp.Some? && config.targetClientIp.value != ip ==> !response.update
    {
      if config.targetClientIp.Some? {
        update := false;
      }
      if config.monitorOnly {
        update := false;
        start := now;  // the window never opens while monitoring
      }
      var added := clients.AddIp(ip, pid);
      if added {
        start := now;
      } else if now - start > CLIENT_POLLING_TIME {
        StableWindow(ip, pid);
      }
      response := Settings(config.cpu, config.mem, config.clientExit, update);
    }
  }

  /** Quorum of three: three addresses check in; a call back 4 seconds
      after the last registration leaves the server running, and the first
      call more than 5 seconds after it stops the server. */
  method QuorumScenario() {
    var a, b, c := "10.0.0.1", "10.0.0.2", "10.0.0.3";
    var server := new GRPCServer(Config(27, 7, false, 3, None, false), 0.0);
    var r := server.GetSettings(a, "101", 0.0);
    r := server.GetSettings(b, "201", 1.0);
    r := server.GetSettings(c, "301", 2.0);
    assert server.clients.clients == map[a := ["101"], b := ["201"], c := ["301"]];
    assert server.clients.clients.Keys == {a, b, c};
    r := server.GetSettings(a, "101", 6.0);
    assert server.runServer;
    r := server.GetSettings(b, "201", 7.5);
    assert !server.runServer;
    assert r.update;
  }

  /** Targeted address A with two pids beside a worker at B: B is never
      sent an update, each pid of A is sent one on its first call in the
      stable window, and the server stops when the second pid of A is
      acknowledged. */
  method TargetedScenario() {
    var a, b := "10.0.0.1", "10.0.0.2";
    var server := new GRPCServer(Config(50, 10, false, 0, Some(a), false), 0.0);
    var r := server.GetSettings(a, "101", 0.0);
    assert !r.update;
    r := server.GetSettings(a, "102", 1.0);
    r := server.GetSettings(b, "201", 2.0);
    r := server.GetSettings(a, "101", 10.0);
    assert r.update && server.runServer;
    r := server.GetSettings(b, "201", 10.5);
    assert !r.update && server.runServer;
    r := server.GetSettings(a, "101", 11.0);
    assert !r.update && server.runServer;
    r := server.GetSettings(a, "102", 11.5);
    assert r.update && !server.runServer;
  }
}
