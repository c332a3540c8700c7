/** The flag that keeps a single reconnect loop alive, beside the readers and pingers
    that may set it off at any time. */
module ReconnectFlight {
  import opened Wire

  /** Readers and pingers watch a connection and ask for a reconnect when it fails them;
      they end with that.  A watcher takes the connection of the moment for each read
      or ping, so one of an older connection may fail late, or move on to the new one. */
  datatype Event =
    | Dialed               // connected by the agent itself
    | WatcherFailed(w: nat)
    | WatcherMoved(w: nat)
    | WatcherStopped(w: nat)   // the client is closing
    | LoopStarted          // the goroutine begins, after the flag was taken
    | LoopConnected        // its attempt succeeded; the flag is still set
    | LoopGaveUp
    | LoopEnded            // the deferred store clears the flag

  /** The flag; the loops that are announced, at work, or done but not yet ended; how
      many were ever announced; the connection in force; and the connection that each
      watcher uses. */
  datatype Flight = Flight(reconnecting: bool, announced: nat, working: nat, leaving: nat, started: nat,
                           connection: nat, watchers: map<nat, nat>, nextWatcher: nat)
  {
    function Loops(): nat {
      announced + working + leaving
    }

    /** A new connection comes with a reader and a pinger. */
    function Connect(): Flight {
      this.(connection := connection + 1, nextWatcher := nextWatcher + 2,
            watchers := watchers[nextWatcher := connection + 1][nextWatcher + 1 := connection + 1])
    }
  }

  const GROUNDED := Flight(false, 0, 0, 0, 0, 0, map[], 0)

  predicate CanHappen(f: Flight, e: Event) {
    match e
    case Dialed => true
    case WatcherFailed(w) => w in f.watchers
    case WatcherMoved(w) => w in f.watchers
    case WatcherStopped(w) => w in f.watchers
    case LoopStarted => f.announced > 0
    case LoopConnected => f.working > 0
    case LoopGaveUp => f.working > 0
    case LoopEnded => f.leaving > 0
  }

  function Next(f: Flight, e: Event): Flight
    requires CanHappen(f, e)
  {
    match e
    case Dialed => f.Connect()
    case WatcherFailed(w) =>
      var g := f.(watchers := f.watchers - {w});
      // The compare-and-swap from false to true.
      if g.reconnecting then g else g.(reconnecting := true, announced := g.announced + 1, started := g.started + 1)
    case WatcherStopped(w) => f.(watchers := f.watchers - {w})
    case WatcherMoved(w) => f.(watchers := f.watchers[w := f.connection])
    case LoopStarted => f.(announced := f.announced - 1, working := f.working + 1)
    case LoopConnected => f.Connect().(working := f.working - 1, leaving := f.leaving + 1)
    case LoopGaveUp => f.(working := f.working - 1, leaving := f.leaving + 1)
    case LoopEnded => f.(leaving := f.leaving - 1, reconnecting := false)
  }

  /** The state after `n` events of a run, if they can happen in this order. */
  function Fly(events: seq<Event>, n: nat): Option<Flight>
    requires n <= |events|
  {
    if n == 0 then Some(GROUNDED)
    else match Fly(events, n - 1)
         case Some(f) => if CanHappen(f, events[n - 1]) then Some(Next(f, events[n - 1])) else None
         case None => None
  }

  /** A failure with no loop end since: told from the positions in the run alone. */
  ghost predicate FailureOpen(events: seq<Event>, n: nat)
    requires n <= |events|
  {
    exists j :: 0 <= j < n && events[j].WatcherFailed? && forall m | j < m < n :: !events[m].LoopEnded?
  }

  /** The failures that no other failure has preceded since the last loop end. */
  ghost function FirstFailures(events: seq<Event>, n: nat): set<nat>
    requires n <= |events|
  {
    set i: nat | i < n && events[i].WatcherFailed? && !FailureOpen(events, i)
  }

  lemma OpenAfter(events: seq<Event>, n: nat)
    requires n < |events|
    ensures FailureOpen(events, n + 1) <==>
            events[n].WatcherFailed? || (FailureOpen(events, n) && !events[n].LoopEnded?)
  {
    if FailureOpen(events, n) && !events[n].LoopEnded? {
      var j :| 0 <= j < n && events[j].WatcherFailed? && forall m | j < m < n :: !events[m].LoopEnded?;
      assert forall m | j < m < n + 1 :: !events[m].LoopEnded?;
    }
  }

  lemma FirstAfter(events: seq<Event>, n: nat)
    requires n < |events|
    ensures |FirstFailures(events, n + 1)| ==
            |FirstFailures(events, n)| + if events[n].WatcherFailed? && !FailureOpen(events, n) then 1 else 0
  {
    var now := if events[n].WatcherFailed? && !FailureOpen(events, n) then {n} else {};
    assert FirstFailures(events, n + 1) == FirstFailures(events, n) + now;
  }

  ghost predicate FlightOk(f: Flight) {
    f.Loops() == if f.reconnecting then 1 else 0
  }

  lemma NextFlight(f: Flight, e: Event)
    requires CanHappen(f, e) && FlightOk(f)
    ensures FlightOk(Next(f, e))
    ensures Next(f, e).reconnecting <==> e.WatcherFailed? || (f.reconnecting && !e.LoopEnded?)
    ensures Next(f, e).started == f.started + if e.WatcherFailed? && !f.reconnecting then 1 else 0
  {
  }

  lemma {:induction false} FlagTellsFailure(events: seq<Event>, n: nat, f: Flight)
    requires n <= |events| && Fly(events, n) == Some(f)
    ensures FlightOk(f) && (f.reconnecting <==> FailureOpen(events, n))
  {
    if n > 0 {
      var before := Fly(events, n - 1).value;
      FlagTellsFailure(events, n - 1, before);
      OpenAfter(events, n - 1);
      NextFlight(before, events[n - 1]);
    }
  }

  lemma {:induction false} StartedCounts(events: seq<Event>, n: nat, f: Flight)
    requires n <= |events| && Fly(events, n) == Some(f)
    ensures f.started == |FirstFailures(events, n)|
  {
    if n == 0 {
      assert FirstFailures(events, 0) == {};
    } else {
      var before := Fly(events, n - 1).value;
      StartedCounts(events, n - 1, before);
      FlagTellsFailure(events, n - 1, before);
      FirstAfter(events, n - 1);
      NextFlight(before, events[n - 1]);
    }
  }

  /** Over every interleaving of failures of old and new connections, successes, loop
      starts and loop ends: the flag is set exactly while one loop is announced, at
      work or leaving, and never more than one is; it is set exactly when a failure has
      had no loop end since; and the loops are as many as the failures that came first
      after a loop end. */
  lemma SingleFlight(events: seq<Event>, n: nat, f: Flight)
    requires n <= |events| && Fly(events, n) == Some(f)
    ensures f.Loops() == if f.reconnecting then 1 else 0
    ensures f.reconnecting <==> FailureOpen(events, n)
    ensures f.started == |FirstFailures(events, n)|
  {
    FlagTellsFailure(events, n, f);
    StartedCounts(events, n, f);
  }

  /** How often each thing happened among the first `n` events. */
  datatype Counts = Counts(dialed: nat, failed: nat, stopped: nat, begun: nat, connected: nat, gaveUp: nat, ended: nat)

  function Counted(events: seq<Event>, n: nat): Counts
    requires n <= |events|
  {
    if n == 0 then Counts(0, 0, 0, 0, 0, 0, 0)
    else
      var c := Counted(events, n - 1);
      match events[n - 1]
      case Dialed => c.(dialed := c.dialed + 1)
      case WatcherFailed(_) => c.(failed := c.failed + 1)
      case WatcherStopped(_) => c.(stopped := c.stopped + 1)
      case WatcherMoved(_) => c
      case LoopStarted => c.(begun := c.begun + 1)
      case LoopConnected => c.(connected := c.connected + 1)
      case LoopGaveUp => c.(gaveUp := c.gaveUp + 1)
      case LoopEnded => c.(ended := c.ended + 1)
  }

  /** Nothing is lost and nothing appears from nowhere: every announced loop begins once,
      connects or gives up once and ends once; every connection is dialed or made by a
      loop and brings two watchers; every watcher fails or stops once or is still there,
      and watches a connection that was made. */
  lemma {:induction false} Ledger(events: seq<Event>, n: nat, f: Flight, c: Counts)
    requires n <= |events| && Fly(events, n) == Some(f) && c == Counted(events, n)
    ensures f.started == f.announced + c.begun && c.begun == f.working + c.connected + c.gaveUp
    ensures c.connected + c.gaveUp == f.leaving + c.ended
    ensures f.connection == c.dialed + c.connected && f.nextWatcher == 2 * f.connection
    ensures |f.watchers| + c.failed + c.stopped == 2 * f.connection
    ensures forall w | w in f.watchers :: w < f.nextWatcher && 0 < f.watchers[w] <= f.connection
  {
    if n > 0 {
      var before := Fly(events, n - 1).value;
      Ledger(events, n - 1, before, Counted(events, n - 1));
      WatchersAfter(before, events[n - 1]);
    }
  }

  lemma WatchersAfter(f: Flight, e: Event)
    requires CanHappen(f, e) && forall w | w in f.watchers :: w < f.nextWatcher && 0 < f.watchers[w] <= f.connection
    requires f.connection > 0 || f.watchers == map[]
    ensures |Next(f, e).watchers| ==
            match e
            case Dialed => |f.watchers| + 2
            case LoopConnected => |f.watchers| + 2
            case WatcherFailed(_) => |f.watchers| - 1
            case WatcherStopped(_) => |f.watchers| - 1
            case _ => |f.watchers|
    ensures forall w | w in Next(f, e).watchers ::
              w < Next(f, e).nextWatcher && 0 < Next(f, e).watchers[w] <= Next(f, e).connection
    ensures e.WatcherMoved? ==> Next(f, e).watchers == f.watchers[e.w := f.connection]
  {
    var g := Next(f, e);
    assert |f.watchers| == |f.watchers.Keys| && |g.watchers| == |g.watchers.Keys|;
    match e {
      case Dialed => assert g.watchers.Keys == f.watchers.Keys + {f.nextWatcher} + {f.nextWatcher + 1};
      case LoopConnected => assert g.watchers.Keys == f.watchers.Keys + {f.nextWatcher} + {f.nextWatcher + 1};
      case WatcherFailed(w) => assert g.watchers.Keys == f.watchers.Keys - {w};
      case WatcherStopped(w) => assert g.watchers.Keys == f.watchers.Keys - {w};
      case WatcherMoved(w) => assert g.watchers.Keys == f.watchers.Keys;
      case _ =>
    }
  }

  /** A failure therefore starts a loop exactly when it is such a first one. */
  lemma FailureStartsLoop(events: seq<Event>, n: nat, f: Flight, w: nat)
    requires n <= |events| && Fly(events, n) == Some(f) && w in f.watchers
    ensures Next(f, WatcherFailed(w)).started == f.started + (if FailureOpen(events, n) then 0 else 1)
  {
    SingleFlight(events, n, f);
  }

  /** A connection dialed, failed by its reader, and made anew by a loop that has not
      ended yet: its pinger 1 is left over, 2 and 3 are the new reader and pinger. */
  lemma SecondConnection(events: seq<Event>) returns (f: Flight)
    requires |events| >= 4 && events[0] == Dialed && events[1] == WatcherFailed(0)
    requires events[2] == LoopStarted && events[3] == LoopConnected
    ensures Fly(events, 4) == Some(f) && f.reconnecting && f.announced == f.working == 0 && f.leaving == f.started == 1
    ensures f.connection == 2 && 1 in f.watchers && 2 in f.watchers && 3 in f.watchers
    ensures f.watchers[1] == 1 && f.watchers[2] == f.watchers[3] == 2
  {
    var three := FirstLoop(events);
    f := AfterConnect(three);
    FlyOn(events, 3, three, f);
  }

  lemma FlyOn(events: seq<Event>, n: nat, f: Flight, g: Flight)
    requires n < |events| && Fly(events, n) == Some(f) && CanHappen(f, events[n]) && g == Next(f, events[n])
    ensures Fly(events, n + 1) == Some(g)
  {
  }

  lemma FirstLoop(events: seq<Event>) returns (f: Flight)
    requires |events| >= 3 && events[0] == Dialed && events[1] == WatcherFailed(0) && events[2] == LoopStarted
    ensures Fly(events, 3) == Some(f) && f == Flight(true, 0, 1, 0, 1, 1, map[1 := 1], 2)
  {
    var one := Flight(false, 0, 0, 0, 0, 1, map[0 := 1, 1 := 1], 2);
    FlyOn(events, 0, GROUNDED, one);
    var two := Flight(true, 1, 0, 0, 1, 1, map[1 := 1], 2);
    assert one.watchers - {0} == map[1 := 1];
    FlyOn(events, 1, one, two);
    f := two.(announced := 0, working := 1);
    FlyOn(events, 2, two, f);
  }

  lemma AfterConnect(f: Flight) returns (g: Flight)
    requires f == Flight(true, 0, 1, 0, 1, 1, map[1 := 1], 2)
    ensures g == Next(f, LoopConnected)
    ensures g.reconnecting && g.announced == g.working == 0 && g.leaving == g.started == 1
    ensures g.connection == 2 && 1 in g.watchers && 2 in g.watchers && 3 in g.watchers
    ensures g.watchers[1] == 1 && g.watchers[2] == g.watchers[3] == 2
  {
    g := Next(f, LoopConnected);
  }

  /** So a failure may be lost: the new reader fails after its connection is made and
      before the loop that made it has ended.  No loop runs, and nobody reads. */
  lemma FailureLost(events: seq<Event>) returns (f: Flight)
    requires events == [Dialed, WatcherFailed(0), LoopStarted, LoopConnected, WatcherFailed(2), LoopEnded]
    ensures Fly(events, 6) == Some(f) && f.Loops() == 0 && f.started == 1
    ensures f.connection == 2 && 2 !in f.watchers
  {
    var four := SecondConnection(events);
    var five := Next(four, WatcherFailed(2));
    assert Fly(events, 5) == Some(five);
    f := Next(five, LoopEnded);
  }

  /** And a late failure of an old connection starts a loop although the new one, with
      its reader and its pinger, is alive. */
  lemma LateFailureReconnects(events: seq<Event>) returns (f: Flight)
    requires events == [Dialed, WatcherFailed(0), LoopStarted, LoopConnected, LoopEnded, WatcherFailed(1)]
    ensures Fly(events, 6) == Some(f) && f.Loops() == 1 && f.started == 2
    ensures f.connection == 2 && 2 in f.watchers && 3 in f.watchers && f.watchers[2] == f.watchers[3] == 2
  {
    var four := SecondConnection(events);
    var five := Next(four, LoopEnded);
    assert Fly(events, 5) == Some(five);
    f := Next(five, WatcherFailed(1));
  }
}
