/** The coordinator's client registry object (busypyserver.py, class
    `clientIPs`): the workers seen so far and, separately, the workers of the
    targeted address that have been sent an update. */
module Clients {

  import opened Registry

  class ClientIPs {
    /** Pids seen under each address (`_clients`). */
    var clients: Pids
    /** Pids acknowledged as updated under each address (`_clients_updated`). */
    var clientsUpdated: Pids

    ghost predicate Valid()
      reads this
    {
      WellFormed(clients) && WellFormed(clientsUpdated)
    }

    constructor ()
      ensures Valid() && clients == map[] && clientsUpdated == map[]
    {
      clients := map[];
      clientsUpdated := map[];
    }

    /** `add_ip` (busypyserver.py:42-56): record (ip, pid) among the
        workers seen, once; `added` says whether it was new. */
    method AddIp(ip: string, pid: string) returns (added: bool)
      requires Valid()
      modifies this`clients
      ensures Valid()
      ensures added <==> !Registered(old(clients), ip, pid)
      ensures (added, clients) == Add(old(clients), ip, pid)
      ensures |clients| == if ip in old(clients) then |old(clients)| else |old(clients)| + 1
    {
      AddKeepsWellFormed(clients, ip, pid);
      if ip !in clients {
        clients := clients[ip := [pid]];
        return true;
      } else {
        if pid !in clients[ip] {
          clients := clients[ip := clients[ip] + [pid]];
          return true;
        }
      }
      return false;
    }

    /** `is_ip_active` (busypyserver.py:58-63): some pid is recorded under
        the address. */
    function IsIpActive(ip: string): (r: bool)
      reads this
      requires Valid()
      ensures r <==> exists pid :: Registered(clients, ip, pid)
    {
      assert ip in clients ==> Registered(clients, ip, clients[ip][0]);
      ip in clients
    }

    /** `remove_ip_pid` (busypyserver.py:65-79): remove (ip, pid) from the
        workers seen; `removed` says whether it was recorded. */
    method RemoveIpPid(ip: string, pid: string) returns (removed: bool)
      requires Valid()
      modifies this`clients
      ensures Valid()
      ensures removed <==> Registered(old(clients), ip, pid)
      ensures (removed, clients) == Remove(old(clients), ip, pid)
    {
      if ip !in clients {
        return false;
      }
      if pid !in clients[ip] {
        return false;
      }
      RemoveKeepsWellFormed(clients, ip, pid);
      var rest := RemoveFirst(clients[ip], pid);
      ghost var expected := Remove(clients, ip, pid);
      if rest == [] {
        clients := clients - {ip};
      } else {
        clients := clients[ip := rest];
      }
      assert clients == expected.1;
      return true;
    }

    /** `total` (busypyserver.py:81-82): the number of distinct addresses
        seen, which is at most the number of (ip, pid) pairs. */
    function Total(): (n: nat)
      reads this
      requires Valid()
      ensures n == |clients.Keys| && n <= |Pairs(clients)|
    {
      AddressesAtMostPairs(clients);
      |clients|
    }

    /** `targeted_client` (busypyserver.py:84-97): the same record-once
        operation as `AddIp`, on the acknowledged map; the workers seen are
        not touched. */
    method TargetedClient(ip: string, pid: string) returns (added: bool)
      requires Valid()
      modifies this`clientsUpdated
      ensures Valid()
      ensures added <==> !Registered(old(clientsUpdated), ip, pid)
      ensures (added, clientsUpdated) == Add(old(clientsUpdated), ip, pid)
    {
      AddKeepsWellFormed(clientsUpdated, ip, pid);
      if ip !in clientsUpdated {
        clientsUpdated := clientsUpdated[ip := [pid]];
        return true;
      } else {
        if pid !in clientsUpdated[ip] {
          clientsUpdated := clientsUpdated[ip := clientsUpdated[ip] + [pid]];
          return true;
        }
      }
      return false;
    }

    /** `is_targeted_updated` (busypyserver.py:99-105): the address is in
        both maps and exactly the pids seen under it have been
        acknowledged. */
    function IsTargetedUpdated(ip: string): (r: bool)
      reads this
      ensures r <==> ip in clientsUpdated && ip in clients
                     && forall pid :: Registered(clientsUpdated, ip, pid) <==> Registered(clients, ip, pid)
    {
      if ip !in clientsUpdated then false
      else if ip !in clients then false
      else
        var l1 := clientsUpdated[ip];
        var l2 := clients[ip];
        var s1, s2 := set p | p in l1, set p | p in l2;
        assert s1 == s2 <==> forall p :: Registered(clientsUpdated, ip, p) <==> Registered(clients, ip, p) by {
          if s1 == s2 {
            forall p ensures Registered(clientsUpdated, ip, p) <==> Registered(clients, ip, p) {
              assert p in s1 <==> p in s2;
            }
          }
          if forall p :: Registered(clientsUpdated, ip, p) <==> Registered(clients, ip, p) {
            forall p ensures p in s1 <==> p in s2 {
              assert Registered(clientsUpdated, ip, p) <==> Registered(clients, ip, p);
            }
            assert s1 == s2;
          }
        }
        s1 == s2
    }
  }
}
