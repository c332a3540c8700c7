/** The TCP half of the tunnel manager: a bounded table of live connections with
    64-bit counters, removal, an idle sweep and shutdown. */
module TcpTunnels {
  import opened Wire

  type Id = Bytes

  /** The counters are unsigned 64-bit and wrap. */
  const WORD := 0x1_0000_0000_0000_0000

  function Sum(sizes: seq<nat>): nat {
    if sizes == [] then 0 else Sum(sizes[..|sizes| - 1]) + sizes[|sizes| - 1]
  }

  /** Wrapping at every addition is wrapping once at the end. */
  lemma WrapSum(a: nat, b: nat)
    ensures (a % WORD + b % WORD) % WORD == (a + b) % WORD
  {
  }

  /** The counters have 64 bits: they are exact below that, and start again there. */
  lemma CounterWidth(n: nat)
    ensures n < 18446744073709551616 ==> n % WORD == n
    ensures 18446744073709551616 % WORD == 0
  {
  }

  lemma SumAfter(sizes: seq<nat>, size: nat)
    ensures (Sum(sizes) % WORD + size % WORD) % WORD == Sum(sizes + [size]) % WORD
  {
    assert (sizes + [size])[..|sizes|] == sizes;
    WrapSum(Sum(sizes), size);
  }

  class TcpTunnel {
    const requestId: Id
    var lastActivity: int
    var bytesSent: nat
    var bytesRecv: nat

    constructor (requestId: Id, now: int)
      ensures this.requestId == requestId
      ensures lastActivity == now && bytesSent == bytesRecv == 0
    {
      this.requestId := requestId;
      lastActivity, bytesSent, bytesRecv := now, 0, 0;
    }

    /** Idle strictly longer than the timeout. */
    predicate IsIdle(now: int, timeout: int)
      reads this`lastActivity
    {
      now - lastActivity > timeout
    }

    method UpdateActivity(now: int)
      modifies this`lastActivity
      ensures lastActivity == now
    {
      lastActivity := now;
    }
  }

  class TcpTable {
    const maxConnections: int
    const idleTimeout: int
    var connections: map<Id, TcpTunnel>
    var connectionsTotal: nat
    var bytesTransferred: nat
    var stopped: bool
    /** The tunnels whose context was cancelled and socket closed by this table, the
        sizes of the removed connections in order, and how many
        connections left through the idle sweep and through shutdown. */
    ghost var closed: set<TcpTunnel>
    ghost var removed: seq<nat>
    ghost var swept: nat
    ghost var stoppedWith: nat

    /** Never over capacity; every connection ever registered is still in the table
        or left it once, by one of three ways; only removals contribute bytes. */
    ghost predicate Valid()
      reads this
    {
      && (connections != map[] ==> |connections| <= maxConnections)
      && connectionsTotal == (|connections| + |removed| + swept + stoppedWith) % WORD
      && bytesTransferred == Sum(removed) % WORD
    }

    constructor (maxConnections: int, idleTimeout: int)
      ensures Valid() && connections == map[] && !stopped
      ensures removed == [] && swept == stoppedWith == 0 && closed == {}
      ensures this.maxConnections == maxConnections && this.idleTimeout == idleTimeout
    {
      this.maxConnections, this.idleTimeout := maxConnections, idleTimeout;
      connections, connectionsTotal, bytesTransferred, stopped := map[], 0, 0, false;
      removed, swept, stoppedWith, closed := [], 0, 0, {};
    }

    /** Refused when full, then when the id is taken; otherwise added. */
    method Register(id: Id, tunnel: TcpTunnel) returns (ok: bool)
      requires Valid()
      modifies this`connections, this`connectionsTotal
      ensures Valid()
      ensures ok == (old(|connections|) < maxConnections && id !in old(connections))
      ensures connections == if ok then old(connections)[id := tunnel] else old(connections)
    {
      if |connections| >= maxConnections {
        return false;
      }
      if id in connections {
        return false;
      }
      connections := connections[id := tunnel];
      connectionsTotal := (connectionsTotal + 1) % WORD;
      return true;
    }

    method Get(id: Id) returns (tunnel: TcpTunnel?)
      ensures tunnel == if id in connections then connections[id] else null
    {
      return if id in connections then connections[id] else null;
    }

    /** Takes the connection out and books its bytes; the caller closes it. */
    method Remove(id: Id)
      requires Valid()
      modifies this`connections, this`bytesTransferred, this`removed
      ensures Valid()
      ensures connections == old(connections) - {id}
      ensures removed == if id in old(connections)
                         then old(removed) + [old(connections[id].bytesSent + connections[id].bytesRecv)]
                         else old(removed)
    {
      if id in connections {
        var tunnel := connections[id];
        RemoveKey(connections, id);
        connections := connections - {id};
        var bytes := tunnel.bytesSent + tunnel.bytesRecv;
        SumAfter(removed, bytes);
        bytesTransferred := (bytesTransferred + bytes % WORD) % WORD;
        removed := removed + [bytes];
      }
    }

    /** Closes one connection and deletes it. */
    method Drop(id: Id, tunnel: TcpTunnel)
      requires id in connections && connections[id] == tunnel
      modifies this`connections, this`closed
      ensures closed == old(closed) + {tunnel}
      ensures forall k :: k in connections <==> k in old(connections) && k != id
      ensures forall k | k in connections :: connections[k] == old(connections)[k]
      ensures |connections| == old(|connections|) - 1
    {
      closed := closed + {tunnel};
      RemoveKey(connections, id);
      connections := connections - {id};
    }

    /** Closes and drops exactly the idle connections.  Their bytes are not booked. */
    method CleanupIdle(now: int)
      requires Valid()
      modifies this`connections, this`swept, this`closed
      ensures Valid()
      ensures forall id :: id in connections <==>
                id in old(connections) && !old(connections)[id].IsIdle(now, idleTimeout)
      ensures forall id | id in connections :: connections[id] == old(connections)[id]
      ensures closed == old(closed) + set id | id in old(connections) && id !in connections :: old(connections)[id]
      ensures swept == old(swept) + old(|connections|) - |connections|
    {
      ghost var before := connections;
      SweepIdle(now);
      SubmapIsSmaller(connections, before);
    }

    /** The loop of the sweep, in any order. */
    method SweepIdle(now: int)
      modifies this`connections, this`swept, this`closed
      ensures forall id :: id in connections <==>
                id in old(connections) && !old(connections)[id].IsIdle(now, idleTimeout)
      ensures forall id | id in connections :: connections[id] == old(connections)[id]
      ensures closed == old(closed) + set id | id in old(connections) && id !in connections :: old(connections)[id]
      ensures |connections| + swept == old(|connections| + swept)
    {
      ghost var before := connections;
      var left := connections.Keys;
      while left != {}
        invariant left <= before.Keys
        invariant forall id | id in connections :: id in before && connections[id] == before[id]
        invariant forall id | id in before :: id in connections <==> id in left || !before[id].IsIdle(now, idleTimeout)
        invariant closed == old(closed) + set id | id in before && id !in connections :: before[id]
        invariant |connections| + swept == old(|connections| + swept)
      {
        var id :| id in left;
        left := left - {id};
        var tunnel := connections[id];
        if tunnel.IsIdle(now, idleTimeout) {
          Drop(id, tunnel);
          swept := swept + 1;
        }
      }
    }

    /** Closes and drops everything that is left; a manager is stopped once. */
    method Stop()
      requires Valid() && !stopped
      modifies this`connections, this`stoppedWith, this`stopped, this`closed
      ensures Valid() && stopped && connections == map[]
      ensures forall id | id in old(connections) :: old(connections)[id] in closed
      ensures stoppedWith == old(stoppedWith) + old(|connections|)
    {
      stopped := true;
      ghost var before := connections;
      while connections != map[]
        invariant stopped
        invariant forall id | id in connections :: id in before && connections[id] == before[id]
        invariant forall id | id in before && id !in connections :: before[id] in closed
        invariant |connections| + stoppedWith == old(|connections| + stoppedWith)
        decreases |connections|
      {
        var id :| id in connections;
        Drop(id, connections[id]);
        stoppedWith := stoppedWith + 1;
      }
    }
  }

  /** Idle means that more than the timeout has passed since the last activity. */
  lemma IdleMeans(tunnel: TcpTunnel, passed: int, timeout: int)
    ensures tunnel.IsIdle(tunnel.lastActivity + passed, timeout) <==> passed > timeout
  {
  }

  lemma RemoveKey<K, V>(m: map<K, V>, k: K)
    requires k in m
    ensures |m - {k}| == |m| - 1
  {
    assert (m - {k}).Keys == m.Keys - {k};
    assert |m - {k}| == |(m - {k}).Keys| && |m| == |m.Keys|;
  }

  lemma SubmapIsSmaller<K, V>(m: map<K, V>, n: map<K, V>)
    requires forall k :: k in m ==> k in n
    ensures |m| <= |n|
    ensures m != map[] ==> n != map[]
  {
    SubsetIsSmaller(m.Keys, n.Keys);
    assert |m| == |m.Keys| && |n| == |n.Keys|;
    if m != map[] {
      var k :| k in m;
      assert k in n;
    }
  }

  lemma {:induction false} SubsetIsSmaller<K>(a: set<K>, b: set<K>)
    requires a <= b
    ensures |a| <= |b|
    decreases a
  {
    if a != {} {
      var k :| k in a;
      SubsetIsSmaller(a - {k}, b - {k});
    }
  }
}
