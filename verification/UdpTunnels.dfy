/** The UDP half of the tunnel manager: each tunnel holds the client sessions it
    has seen, and a periodic sweep drops stale sessions and stale tunnels. */
module UdpTunnels {
  import opened Wire
  import opened TcpTunnels

  /** A client address and port. */
  type Client = (Bytes, int)

  /** The last activity of each client. */
  type Sessions = map<Client, int>

  /** `carried` is history: whether the tunnel has ever carried a datagram. */
  datatype Tunnel = Tunnel(sessions: Sessions, lastActivity: int, carried: bool,
                           packetsSent: nat, packetsRecv: nat)

  function NewTunnel(now: int): Tunnel {
    Tunnel(map[], now, false, 0, 0)
  }

  /** `UpdateSession`: the client's session and the tunnel itself become active now. */
  function Refreshed(t: Tunnel, client: Client, now: int): Tunnel {
    t.(sessions := t.sessions[client := now], lastActivity := now, carried := true)
  }

  // ----- The two staleness tests -----

  function Live(sessions: Sessions, now: int, timeout: int): Sessions {
    map c | c in sessions && now - sessions[c] <= timeout :: sessions[c]
  }

  /** `last` is the instant of the latest datagram: no session is newer, and the
      session it belongs to is still there unless the timeout has passed. */
  ghost predicate Coherent(sessions: Sessions, last: int, now: int, timeout: int) {
    && last <= now
    && (forall c | c in sessions :: sessions[c] <= last)
    && (now - last <= timeout ==> exists c | c in sessions :: sessions[c] == last)
  }

  ghost predicate Ok(t: Tunnel, now: int, timeout: int) {
    if t.carried then Coherent(t.sessions, t.lastActivity, now, timeout)
    else t.sessions == map[] && t.lastActivity <= now
  }

  lemma OkLater(t: Tunnel, before: int, now: int, timeout: int)
    requires Ok(t, before, timeout) && before <= now
    ensures Ok(t, now, timeout)
  {
  }

  lemma RefreshedIsOk(t: Tunnel, client: Client, now: int, timeout: int)
    requires Ok(t, now, timeout)
    ensures Ok(Refreshed(t, client, now), now, timeout)
  {
    assert client in t.sessions[client := now];
  }

  function Swept(t: Tunnel, now: int, timeout: int): Tunnel {
    t.(sessions := Live(t.sessions, now, timeout))
  }

  /** What the sweep may rely on, for any tunnel. */
  lemma SweptIsOk(t: Tunnel, now: int, timeout: int)
    requires Ok(t, now, timeout)
    ensures Ok(Swept(t, now, timeout), now, timeout)
    ensures now - t.lastActivity > timeout ==> Swept(t, now, timeout).sessions == map[]
    ensures t.carried && now - t.lastActivity <= timeout ==> Swept(t, now, timeout).sessions != map[]
  {
    if t.carried {
      SweepTestsCoincide(t.sessions, t.lastActivity, now, timeout);
    } else {
      assert Live(t.sessions, now, timeout) == map[];
    }
  }

  /** The sweep asks whether any session is left and whether the tunnel itself is
      stale; on a tunnel that has carried a datagram the two answers coincide. */
  lemma SweepTestsCoincide(sessions: Sessions, last: int, now: int, timeout: int)
    requires Coherent(sessions, last, now, timeout)
    ensures Live(sessions, now, timeout) == map[] <==> now - last > timeout
    ensures Coherent(Live(sessions, now, timeout), last, now, timeout)
  {
    var live := Live(sessions, now, timeout);
    if now - last <= timeout {
      var c :| c in sessions && sessions[c] == last;
      assert c in live && live[c] == last;
    }
  }

  method CleanupStaleSessions(sessions: Sessions, now: int, timeout: int) returns (kept: Sessions)
    ensures kept == Live(sessions, now, timeout)
    ensures forall c :: c in kept <==> c in sessions && now - sessions[c] <= timeout
    ensures forall c | c in kept :: kept[c] == sessions[c]
  {
    kept := sessions;
    var left := sessions.Keys;
    while left != {}
      invariant left <= kept.Keys
      invariant forall c :: c in kept <==> c in sessions && (c in left || now - sessions[c] <= timeout)
      invariant forall c | c in kept :: kept[c] == sessions[c]
    {
      var c :| c in left;
      left := left - {c};
      if now - sessions[c] > timeout {
        kept := kept - {c};
      }
    }
    assert kept == Live(sessions, now, timeout);
  }

  class UdpTable {
    const maxSessions: int
    const sessionTimeout: int
    var tunnels: map<Id, Tunnel>
    var sessionsTotal: nat
    var packetsTransferred: nat
    /** The instant of the last call, how many tunnels have left the table, and how
        many of them it closed itself. */
    ghost var clock: int
    ghost var departed: nat
    ghost var closed: nat

    ghost predicate Valid()
      reads this
    {
      && (tunnels != map[] ==> |tunnels| <= maxSessions)
      && sessionsTotal == (|tunnels| + departed) % WORD
      && forall id | id in tunnels :: Ok(tunnels[id], clock, sessionTimeout)
    }

    constructor (maxSessions: int, sessionTimeout: int, now: int)
      ensures Valid() && tunnels == map[] && departed == 0 && clock == now && closed == 0
      ensures this.maxSessions == maxSessions && this.sessionTimeout == sessionTimeout
    {
      this.maxSessions, this.sessionTimeout := maxSessions, sessionTimeout;
      tunnels, sessionsTotal, packetsTransferred := map[], 0, 0;
      clock, departed, closed := now, 0, 0;
    }

    /** Time passes. */
    ghost method Tick(now: int)
      requires Valid() && clock <= now
      modifies this`clock
      ensures Valid() && clock == now
    {
      forall id | id in tunnels
        ensures Ok(tunnels[id], now, sessionTimeout)
      {
        OkLater(tunnels[id], clock, now, sessionTimeout);
      }
      clock := now;
    }

    /** When full nothing is registered, and even an id already present is refused;
        otherwise a present id keeps its tunnel and a new one is added. */
    method Register(id: Id, now: int) returns (ok: bool)
      requires Valid() && clock == now
      modifies this`tunnels, this`sessionsTotal
      ensures Valid()
      ensures ok == (old(|tunnels|) < maxSessions)
      ensures tunnels == if ok && id !in old(tunnels) then old(tunnels)[id := Tunnel(map[], now, false, 0, 0)]
                         else old(tunnels)
    {
      if |tunnels| >= maxSessions {
        return false;
      }
      if id !in tunnels {
        tunnels := tunnels[id := NewTunnel(now)];
        sessionsTotal := (sessionsTotal + 1) % WORD;
      }
      return true;
    }

    method UpdateSession(id: Id, client: Client, now: int)
      requires Valid() && clock == now && id in tunnels
      modifies this`tunnels
      ensures Valid()
      ensures var t := old(tunnels)[id];
              tunnels == old(tunnels)[id := t.(sessions := t.sessions[client := now], lastActivity := now,
                                               carried := true)]
    {
      RefreshedIsOk(tunnels[id], client, now, sessionTimeout);
      tunnels := tunnels[id := Refreshed(tunnels[id], client, now)];
    }

    /** A datagram from the gateway refreshes its client's session, and touches no
        other tunnel; it is lost only when its tunnel is new and the table full. */
    method HandleDatagram(id: Id, client: Client, now: int) returns (ok: bool)
      requires Valid() && clock <= now
      modifies this`tunnels, this`sessionsTotal, this`clock
      ensures Valid() && clock == now
      ensures ok <==> id in old(tunnels) || old(|tunnels|) < maxSessions
      ensures !ok ==> tunnels == old(tunnels)
      ensures ok && id in old(tunnels) ==>
                var t := old(tunnels)[id];
                tunnels == old(tunnels)[id := t.(sessions := t.sessions[client := now], lastActivity := now,
                                                 carried := true)]
      ensures ok && id !in old(tunnels) ==>
                tunnels == old(tunnels)[id := Tunnel(map[client := now], now, true, 0, 0)]
    {
      Tick(now);
      if id !in tunnels {
        ok := Register(id, now);
        if !ok {
          return;
        }
      }
      UpdateSession(id, client, now);
      return true;
    }

    /** Takes the tunnel out and books its packets. */
    method Remove(id: Id)
      requires Valid()
      modifies this`tunnels, this`packetsTransferred, this`departed
      ensures Valid()
      ensures tunnels == old(tunnels) - {id}
      ensures packetsTransferred ==
              if id in old(tunnels)
              then (old(packetsTransferred) + old(tunnels)[id].packetsSent + old(tunnels)[id].packetsRecv) % WORD
              else old(packetsTransferred)
    {
      if id in tunnels {
        var tunnel := tunnels[id];
        RemoveKey(tunnels, id);
        tunnels := tunnels - {id};
        packetsTransferred := (packetsTransferred + tunnel.packetsSent + tunnel.packetsRecv) % WORD;
        departed := departed + 1;
      }
    }

    /** Drops exactly the tunnels whose own last activity is older than the timeout.
        A tunnel that stays keeps its live sessions, and has one if it ever carried a
        datagram; a tunnel that goes had no live session. */
    method CleanupStale(now: int)
      requires Valid() && clock <= now
      modifies this`tunnels, this`departed, this`clock, this`closed
      ensures Valid() && clock == now
      ensures forall id :: id in tunnels <==>
                id in old(tunnels) && now - old(tunnels)[id].lastActivity <= sessionTimeout
      ensures forall id | id in tunnels ::
                && tunnels[id] == Swept(old(tunnels)[id], now, sessionTimeout)
                && (tunnels[id].carried ==> tunnels[id].sessions != map[])
      ensures forall id | id in old(tunnels) && id !in tunnels ::
                Swept(old(tunnels)[id], now, sessionTimeout).sessions == map[]
      ensures closed == old(closed) + |old(tunnels)| - |tunnels|
    {
      Tick(now);
      ghost var before := tunnels;
      SweepTunnels(now);
      forall id | id in before
        ensures Ok(Swept(before[id], now, sessionTimeout), now, sessionTimeout)
        ensures now - before[id].lastActivity > sessionTimeout ==>
                  Swept(before[id], now, sessionTimeout).sessions == map[]
        ensures before[id].carried && now - before[id].lastActivity <= sessionTimeout ==>
                  Swept(before[id], now, sessionTimeout).sessions != map[]
      {
        SweptIsOk(before[id], now, sessionTimeout);
      }
      SubmapIsSmaller(tunnels, before);
    }

    /** The loop of the sweep, in any order of the ids. */
    method SweepTunnels(now: int)
      requires forall id | id in tunnels :: Ok(tunnels[id], now, sessionTimeout)
      modifies this`tunnels, this`departed, this`closed
      ensures forall id :: id in tunnels <==>
                id in old(tunnels) && now - old(tunnels)[id].lastActivity <= sessionTimeout
      ensures forall id | id in tunnels :: tunnels[id] == Swept(old(tunnels)[id], now, sessionTimeout)
      ensures |tunnels| + departed == old(|tunnels| + departed)
      ensures closed + |tunnels| == old(closed + |tunnels|)
    {
      ghost var before := tunnels;
      var left := tunnels.Keys;
      while left != {}
        invariant left <= before.Keys
        invariant forall id :: id in tunnels <==>
                    id in before && (id in left || now - before[id].lastActivity <= sessionTimeout)
        invariant forall id | id in tunnels ::
                    tunnels[id] == if id in left then before[id] else Swept(before[id], now, sessionTimeout)
        invariant |tunnels| + departed == old(|tunnels| + departed)
        invariant closed + |tunnels| == old(closed + |tunnels|)
      {
        var id :| id in left;
        left := left - {id};
        SweepOne(id, now);
      }
    }

    /** The loop body of the sweep: both tests, as the source has them. */
    method SweepOne(id: Id, now: int)
      requires id in tunnels && Ok(tunnels[id], now, sessionTimeout)
      modifies this`tunnels, this`departed, this`closed
      ensures |tunnels| + departed == old(|tunnels| + departed)
      ensures now - old(tunnels)[id].lastActivity <= sessionTimeout ==>
                tunnels == old(tunnels)[id := Swept(old(tunnels)[id], now, sessionTimeout)]
      ensures now - old(tunnels)[id].lastActivity > sessionTimeout ==>
                tunnels == old(tunnels) - {id}
      ensures closed + |tunnels| == old(closed + |tunnels|)
    {
      var tunnel := tunnels[id];
      SweptIsOk(tunnel, now, sessionTimeout);
      var kept := CleanupStaleSessions(tunnel.sessions, now, sessionTimeout);
      tunnels := tunnels[id := tunnel.(sessions := kept)];
      if |kept| == 0 && now - tunnel.lastActivity > sessionTimeout {
        RemoveKey(tunnels, id);
        tunnels := tunnels - {id};
        closed := closed + 1;
        departed := departed + 1;
      }
    }
  }
}
