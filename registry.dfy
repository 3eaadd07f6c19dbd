/** The coordinator's bookkeeping of workers as a value: for each worker
    address, the process ids seen under it in first-seen order
    (busypyserver.py, class `clientIPs`). The same operations serve the
    map of workers seen and the map of workers that acknowledged a targeted
    update. */
module Registry {

  type Pids = map<string, seq<string>>

  /** The pair (ip, pid) is recorded. */
  predicate Registered(m: Pids, ip: string, pid: string)
  {
    ip in m && pid in m[ip]
  }

  predicate NoDup(s: seq<string>)
  {
    forall i, j :: 0 <= i < j < |s| ==> s[i] != s[j]
  }

  /** No pid appears twice under one address and no address maps to an
      empty list. */
  predicate WellFormed(m: Pids)
  {
    forall ip :: ip in m ==> m[ip] != [] && NoDup(m[ip])
  }

  /** Every pair in `acked` is also in `seen`. */
  ghost predicate AckedWithinSeen(seen: Pids, acked: Pids)
  {
    forall ip, pid :: Registered(acked, ip, pid) ==> Registered(seen, ip, pid)
  }

  /** The set of recorded (ip, pid) pairs. */
  function Pairs(m: Pids): set<(string, string)>
  {
    set ip, pid | ip in m && pid in m[ip] :: (ip, pid)
  }

  /** Record (ip, pid) once (busypyserver.py:42-56 and 84-97): the flag says
      whether the pair was new; a new pid goes to the end of its address's
      list, a new address gets a list of its own. */
  function Add(m: Pids, ip: string, pid: string): (r: (bool, Pids))
    ensures r.0 <==> !Registered(m, ip, pid)
    ensures forall i, p :: Registered(r.1, i, p) <==> Registered(m, i, p) || (i == ip && p == pid)
    ensures !r.0 ==> r.1 == m
    ensures r.0 ==> ip in r.1 && r.1[ip] == (if ip in m then m[ip] else []) + [pid]
    ensures r.1.Keys == m.Keys + {ip}
    ensures forall i :: i in m && i != ip ==> r.1[i] == m[i]
  {
    if ip !in m then
      (true, m[ip := [pid]])
    else if pid !in m[ip] then
      (true, m[ip := m[ip] + [pid]])
    else
      (false, m)
  }

  /** Recording a pair keeps the map well formed, and adds an address to
      the count only when the address is new. */
  lemma AddKeepsWellFormed(m: Pids, ip: string, pid: string)
    requires WellFormed(m)
    ensures WellFormed(Add(m, ip, pid).1)
    ensures |Add(m, ip, pid).1| == if ip in m then |m| else |m| + 1
  {
    var r := Add(m, ip, pid).1;
    if ip in m && pid !in m[ip] {
      var s := m[ip] + [pid];
      assert NoDup(s) by {
        forall i, j | 0 <= i < j < |s| ensures s[i] != s[j] {
          if j == |s| - 1 { assert s[i] in m[ip]; }
        }
      }
      assert r.Keys == m.Keys;
    } else if ip !in m {
      assert r.Keys == m.Keys + {ip};
    }
  }

  /** `list.remove`: the list without the first occurrence of `x`. An
      absent `x`, on which Python raises ValueError, never reaches it from
      `remove_ip_pid` (busypyserver.py:72); here the list comes back
      unchanged. */
  function RemoveFirst(s: seq<string>, x: string): (r: seq<string>)
    ensures x in s ==> |r| == |s| - 1
    ensures x !in s ==> r == s
  {
    if s == [] then []
    else
      assert s == [s[0]] + s[1..];
      if s[0] == x then s[1..]
      else [s[0]] + RemoveFirst(s[1..], x)
  }

  /** `list.remove` takes out the first occurrence of `x`, at index `k`,
      and keeps the other elements in their order. */
  lemma {:induction false} RemoveFirstIsFirstOccurrence(s: seq<string>, x: string, k: nat)
    requires k < |s| && s[k] == x && x !in s[..k]
    ensures RemoveFirst(s, x) == s[..k] + s[k + 1..]
  {
    if k == 0 {
      assert s[..0] == [];
    } else {
      var t := s[1..];
      assert s[0] in s[..k];
      assert t[..k - 1] == s[1..k];
      RemoveFirstIsFirstOccurrence(t, x, k - 1);
      calc {
        RemoveFirst(s, x);
        [s[0]] + RemoveFirst(t, x);
        [s[0]] + (t[..k - 1] + t[k..]);
        ([s[0]] + t[..k - 1]) + t[k..];
        { assert s[..k] == [s[0]] + t[..k - 1]; assert s[k + 1..] == t[k..]; }
        s[..k] + s[k + 1..];
      }
    }
  }

  /** So exactly one copy of `x`, if there is one, goes and every other
      element keeps its count. */
  lemma {:induction false} RemoveFirstMultiset(s: seq<string>, x: string)
    ensures multiset(RemoveFirst(s, x)) == multiset(s) - multiset{x}
  {
    if s != [] {
      assert s == [s[0]] + s[1..];
      assert multiset(s) == multiset{s[0]} + multiset(s[1..]);
      if s[0] != x {
        RemoveFirstMultiset(s[1..], x);
        assert RemoveFirst(s, x) == [s[0]] + RemoveFirst(s[1..], x);
      }
    }
  }

  /** A list without duplicates splits into a head absent from a tail
      without duplicates. */
  lemma NoDupUncons(s: seq<string>)
    requires NoDup(s) && s != []
    ensures NoDup(s[1..]) && s[0] !in s[1..]
  {
    forall j | 0 <= j < |s| - 1 ensures s[1..][j] != s[0] {
      assert s[1..][j] == s[j + 1];
    }
  }

  /** Putting an absent element in front keeps a list without duplicates. */
  lemma NoDupCons(a: string, t: seq<string>)
    requires NoDup(t) && a !in t
    ensures NoDup([a] + t)
  {
    var r := [a] + t;
    forall i, j | 0 <= i < j < |r| ensures r[i] != r[j] {
      assert r[j] == t[j - 1];
      if i > 0 { assert r[i] == t[i - 1]; }
    }
  }

  /** Without duplicates, removing the first occurrence removes `x`
      altogether and leaves every other element in place. */
  lemma {:induction false} RemoveFirstRemovesAll(s: seq<string>, x: string)
    requires NoDup(s)
    ensures forall y :: y in RemoveFirst(s, x) <==> y in s && y != x
  {
    if s != [] {
      NoDupUncons(s);
      assert s == [s[0]] + s[1..];
      if s[0] != x {
        RemoveFirstRemovesAll(s[1..], x);
      }
    }
  }

  /** Removing the first occurrence keeps a list free of duplicates. */
  lemma {:induction false} RemoveFirstNoDup(s: seq<string>, x: string)
    requires NoDup(s)
    ensures NoDup(RemoveFirst(s, x))
  {
    if s != [] {
      NoDupUncons(s);
      if s[0] != x {
        RemoveFirstNoDup(s[1..], x);
        RemoveFirstRemovesAll(s[1..], x);
        NoDupCons(s[0], RemoveFirst(s[1..], x));
      }
    }
  }

  /** Remove (ip, pid) (busypyserver.py:65-79): nothing happens if it is not
      recorded; otherwise exactly that pid goes, and the address goes with it
      when it was the address's last pid. */
  function Remove(m: Pids, ip: string, pid: string): (r: (bool, Pids))
    ensures r.0 <==> Registered(m, ip, pid)
    ensures !r.0 ==> r.1 == m
    ensures r.0 ==> (ip in r.1 <==> |m[ip]| > 1) && (ip in r.1 ==> r.1[ip] == RemoveFirst(m[ip], pid))
    ensures forall i :: i != ip ==> (i in r.1 <==> i in m) && (i in m ==> r.1[i] == m[i])
  {
    if ip !in m then
      (false, m)
    else if pid !in m[ip] then
      (false, m)
    else
      var rest := RemoveFirst(m[ip], pid);
      if rest == [] then (true, m - {ip}) else (true, m[ip := rest])
  }

  /** On a well-formed map, removing a pair removes exactly that pair and
      keeps the map well formed. */
  lemma RemoveKeepsWellFormed(m: Pids, ip: string, pid: string)
    requires WellFormed(m)
    ensures forall i, p :: Registered(Remove(m, ip, pid).1, i, p) <==> Registered(m, i, p) && !(i == ip && p == pid)
    ensures WellFormed(Remove(m, ip, pid).1)
  {
    if Registered(m, ip, pid) {
      RemoveFirstNoDup(m[ip], pid);
      RemoveFirstRemovesAll(m[ip], pid);
    }
  }

  /** The number of addresses never exceeds the number of recorded pairs:
      `total()` counts addresses, and several pids under one address count
      once. */
  lemma {:induction false} AddressesAtMostPairs(m: Pids)
    requires WellFormed(m)
    ensures |m| <= |Pairs(m)|
    decreases |m|
  {
    if m != map[] {
      var ip :| ip in m;
      var rest := m - {ip};
      assert rest.Keys == m.Keys - {ip};
      assert |rest| == |m| - 1;
      assert WellFormed(rest);
      AddressesAtMostPairs(rest);
      var first := (ip, m[ip][0]);
      assert first in Pairs(m);
      assert first !in Pairs(rest);
      assert Pairs(rest) <= Pairs(m);
      var grown := Pairs(rest) + {first};
      assert |grown| == |Pairs(rest)| + 1;
      assert grown <= Pairs(m);
      assert Pairs(m) == grown + (Pairs(m) - grown);
    }
  }
}
